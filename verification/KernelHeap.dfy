/** The process core as the kernel keeps it in memory: control blocks linked through one shared `next`
  * field, ring buffers, flags and waiter pointers.  Each method is one atomic region of the C code and is
  * proved to do exactly what the model's step function says. */
module KernelHeap {
  import opened Common
  import opened KernelModel
  import opened KernelInvariant
  import opened LinkedLists
  import opened Queues
  import opened Words
  import Page

  class Lock {
    var pid: int
    var count: nat
    const waitList: LinkedList

    /** initMutex. */
    constructor ()
      ensures pid == -1 && count == 0 && waitList.Valid() && waitList.nodes == [] && fresh(waitList)
    {
      pid, count := -1, 0;
      waitList := new LinkedList();
    }
  }

  // ---------------------------------------------------------------- the lists of the model, as one family

  /** Ready list, sleep list, then the wait list of every mutex. */
  ghost function ListsOf(k: Kernel): (q: seq<seq<Pid>>)
    ensures |q| == 2 + |k.mutexes| && q[0] == k.ready && q[1] == k.sleeping
    ensures forall m :: 0 <= m < |k.mutexes| ==> q[2 + m] == k.mutexes[m].waiters
  {
    [k.ready, k.sleeping] + seq(|k.mutexes|, m requires 0 <= m < |k.mutexes| => k.mutexes[m].waiters)
  }

  /** No pid is in two lists, or twice in one. */
  ghost predicate Apart(q: seq<seq<Pid>>) {
    && (forall a :: 0 <= a < |q| ==> NoDup(q[a]))
    && (forall a, b, p: Pid :: 0 <= a < b < |q| && p in q[a] ==> p !in q[b])
  }

  ghost predicate Nowhere(q: seq<seq<Pid>>, p: Pid) { forall a :: 0 <= a < |q| ==> p !in q[a] }

  /** The invariant of the model is what keeps the shared link field sound. */
  lemma ListsApart(k: Kernel)
    requires Lists(k)
    ensures Apart(ListsOf(k))
  {
    var q := ListsOf(k);
    forall a | 0 <= a < |q| ensures NoDup(q[a]) {
      if a >= 2 { assert q[2 + (a - 2)] == k.mutexes[a - 2].waiters; }
    }
    forall a, b, p: Pid | 0 <= a < b < |q| && p in q[a] ensures p !in q[b] {
      if a >= 2 { assert q[2 + (a - 2)] == k.mutexes[a - 2].waiters && Waits(k.mutexes, a - 2, p); }
      if b >= 2 { assert q[2 + (b - 2)] == k.mutexes[b - 2].waiters && !Waits(k.mutexes, b - 2, p); }
    }
  }

  lemma PushApart(q: seq<seq<Pid>>, a: nat, p: Pid)
    requires Apart(q) && a < |q| && Nowhere(q, p)
    ensures Apart(q[a := q[a] + [p]])
  {
  }

  lemma CutApart(q: seq<seq<Pid>>, a: nat, s: seq<Pid>)
    requires Apart(q) && a < |q| && NoDup(s) && forall p :: p in s ==> p in q[a]
    ensures Apart(q[a := s])
  {
  }

  /** `nodes` are the control blocks of the pids `s`, in order. */
  ghost predicate Names(pool: seq<PCB>, pcbs: set<PCB>, nodes: seq<PCB>, s: seq<Pid>)
    requires |pool| == PROCESS_MAXCOUNT
  {
    |nodes| == |s| && (forall i :: 0 <= i < |s| ==> nodes[i] == pool[s[i]]) && (forall n :: n in nodes ==> n in pcbs)
  }

  /** Cutting position `i` out of both. */
  lemma NamesCut(pool: seq<PCB>, pcbs: set<PCB>, nodes: seq<PCB>, q: seq<seq<Pid>>, a: nat, i: nat)
    requires |pool| == PROCESS_MAXCOUNT && a < |q| && Names(pool, pcbs, nodes, q[a]) && i < |nodes| && Apart(q)
    ensures var s := q[a]; Names(pool, pcbs, nodes[..i] + nodes[i + 1..], s[..i] + s[i + 1..]) && Apart(q[a := s[..i] + s[i + 1..]])
  {
    var s := q[a];
    var cut, ns := s[..i] + s[i + 1..], nodes[..i] + nodes[i + 1..];
    forall j | 0 <= j < |cut| ensures ns[j] == pool[cut[j]] {
      assert cut[j] == s[if j < i then j else j + 1];
    }
    CutApart(q, a, cut);
  }

  // ---------------------------------------------------------------- what the invariant gives each region

  /** The running process is on no list, so its link field is free to be used. */
  lemma RunningNowhere(k: Kernel)
    requires Lists(k) && OnCpu(k) && k.running != k.idle
    ensures Nowhere(ListsOf(k), k.running) && k.alloc[k.running]
  {
    var q := ListsOf(k);
    forall a | 0 <= a < |q| ensures k.running !in q[a] {
      if a >= 2 { assert q[2 + (a - 2)] == k.mutexes[a - 2].waiters && !Waits(k.mutexes, a - 2, k.running); }
    }
  }

  /** A blocked process outside the wait lists is at most on the sleep list. */
  ghost predicate OnlySleeping(k: Kernel, p: Pid) {
    k.st[p] == Blocked ==> k.alloc[p] && forall a :: 0 <= a < |ListsOf(k)| && a != 1 ==> p !in ListsOf(k)[a]
  }

  lemma ParkedOnlySleeping(k: Kernel, p: Pid)
    requires Lists(k) && Continuations(k) && k.cont[p] != Free && !k.cont[p].Locking?
    ensures OnlySleeping(k, p)
  {
    var q := ListsOf(k);
    forall a | 0 <= a < |q| && a != 1 ensures k.st[p] == Blocked ==> p !in q[a] {
      if a >= 2 { assert q[2 + (a - 2)] == k.mutexes[a - 2].waiters && (k.st[p] == Blocked ==> !Waits(k.mutexes, a - 2, p)); }
    }
  }

  lemma WakeNowhere(k: Kernel, x: Pid)
    requires Apart(ListsOf(k)) && OnlySleeping(k, x) && k.st[x] == Blocked
    ensures Nowhere(ListsOf(k.(sleeping := Wakeup(k, x).sleeping)), x) && k.alloc[x]
  {
    hide ListsOf, Wakeup, Common.Remove, NoDup;
    WakeSleeping(k, x);
    SleepingAt(k, Common.Remove(k.sleeping, x));
    RemoveNoDup(k.sleeping, x);
  }

  lemma WakeSleeping(k: Kernel, x: Pid)
    requires k.st[x] == Blocked
    ensures Wakeup(k, x).sleeping == Common.Remove(k.sleeping, x)
  {
    hide Common.Remove;
  }

  lemma SleepingAt(k: Kernel, s: seq<Pid>)
    ensures |ListsOf(k)| >= 2 && ListsOf(k)[1] == k.sleeping && ListsOf(k.(sleeping := s)) == ListsOf(k)[1 := s]
  {
  }

  lemma DropNowhere(k: Kernel, p: Pid)
    requires k.ready != [] && Nowhere(ListsOf(k), p)
    ensures Nowhere(ListsOf(k.(ready := k.ready[1..])), p)
  {
    var q, w := ListsOf(k), k.(ready := k.ready[1..]);
    assert ListsOf(w) == q[0 := k.ready[1..]];
    assert p !in q[0];
    hide ListsOf;
  }

  /** Every sleeper the timer may wake. */
  lemma SleeperOnlySleeping(k: Kernel, p: Pid)
    requires Lists(k) && p in k.sleeping
    ensures OnlySleeping(k, p) && k.st[p] == Blocked
  {
    var q := ListsOf(k);
    forall a | 0 <= a < |q| && a != 1 ensures p !in q[a] {
      if a >= 2 { assert q[2 + (a - 2)] == k.mutexes[a - 2].waiters && !Waits(k.mutexes, a - 2, p); }
    }
  }

  /** Half-way through wakeExpiredProcess on `k`: the walk has reached `w`, kept the sleepers `kept` and
    * has the nodes `ps` ahead. */
  ghost predicate Walking(k: Kernel, w: Kernel, kept: seq<Pid>, ps: seq<Pid>) {
    && Core(w) && OnCpu(w) && w.cont[w.running] == Free
    && w.sleeping == kept + ps && WakeExpired(w, ps) == WakeExpired(k, k.sleeping)
  }

  /** The walk takes nodes out of the list it walks, and stays on it. */
  lemma WalkStep(k: Kernel, w: Kernel, kept: seq<Pid>, ps: seq<Pid>)
    requires Walking(k, w, kept, ps) && ps != []
    ensures if w.tick >= w.wake[ps[0]] then Walking(k, Wakeup(w, ps[0]), kept, ps[1..]) else Walking(k, w, kept + [ps[0]], ps[1..])
    ensures OnlySleeping(w, ps[0]) && w.st[ps[0]] == Blocked
  {
    hide Core, OnlySleeping, NoDup, MayWake;
    var q := ps[0];
    SleeperAhead(w, kept, ps);
    if w.tick >= w.wake[q] {
      WakeupCore(w, q);
      RemoveAt(w.sleeping, |kept|);
      assert Common.Remove(w.sleeping, q) == kept + ps[1..];
    } else {
      assert kept + ps == kept + [q] + ps[1..];
    }
  }

  lemma SleeperAhead(w: Kernel, kept: seq<Pid>, ps: seq<Pid>)
    requires Core(w) && OnCpu(w) && w.sleeping == kept + ps && ps != []
    ensures w.sleeping[|kept|] == ps[0] && NoDup(w.sleeping) && ps[0] != w.running
    ensures OnlySleeping(w, ps[0]) && w.st[ps[0]] == Blocked && (w.tick >= w.wake[ps[0]] ==> MayWake(w, ps[0]))
  {
    hide Mutexes, Exits, OnlySleeping;
    assert w.sleeping[|kept|] == ps[0] && ps[0] in w.sleeping;
    SleeperOnlySleeping(w, ps[0]);
  }

  lemma WalkStart(k: Kernel)
    requires Core(k) && OnCpu(k) && k.cont[k.running] == Free
    ensures Walking(k, k, [], k.sleeping)
  {
    hide Core, OnCpu;
    assert [] + k.sleeping == k.sleeping;
  }

  lemma WalkDone(k: Kernel, w: Kernel, kept: seq<Pid>)
    requires Walking(k, w, kept, [])
    ensures w == WakeExpired(k, k.sleeping)
  {
  }

  lemma SameLists(k: Kernel, w: Kernel)
    requires w.ready == k.ready && w.sleeping == k.sleeping && w.mutexes == k.mutexes
    ensures ListsOf(w) == ListsOf(k)
  {
  }

  // ---------------------------------------------------------------- the kernel in memory

  class Machine {
    const pool: seq<PCB>
    const processList: LinkedList
    const sleepList: LinkedList
    const mutexes: seq<Lock>
    const allocProcessTable: array<int>
    const exitProcessQueue: Queue
    const keyQueue: Queue
    const diskWaiter: array<PCB?>   // [isPrimary]
    const interruptOccur: array<bool>
    const page: array<Page.PageEntry>   // the memory that holds the page tables
    ghost const lists: seq<LinkedList>
    ghost const pcbs: set<PCB>         // the blocks of `pool`
    ghost const queues: set<LinkedList> // the members of `lists`
    ghost const locks: set<Lock>        // the members of `mutexes`
    var runningProcess: PCB
    var idleProcess: PCB
    var collectorProcess: PCB
    var keyWaiter: PCB?
    var pidCountIdx: nat
    var tickCount: nat

    /** Memory at boot: blocks for every slot, empty lists and rings, the boot process in slot 0. */
    constructor (mutexCount: nat)
      ensures AtBoot(mutexCount)
      ensures fresh(pcbs) && fresh(queues) && fresh(processList) && fresh(locks) && fresh(exitProcessQueue) && fresh(exitProcessQueue.arr)
      ensures fresh(keyQueue) && fresh(keyQueue.arr) && fresh(diskWaiter) && fresh(interruptOccur) && fresh(allocProcessTable) && fresh(page)
    {
      var blocks, blockSet := MakePool();
      var ready, sleep, ls, lockSet, family, members := MakeLists(mutexCount);
      pool, pcbs, mutexes, locks, lists, queues := blocks, blockSet, ls, lockSet, family, members;
      processList, sleepList := ready, sleep;
      var exits, keys := MakeRings();
      var table, waiters, flags, pages := MakeTables();
      exitProcessQueue, keyQueue := exits, keys;
      allocProcessTable, diskWaiter, interruptOccur, page := table, waiters, flags, pages;
      runningProcess, idleProcess, collectorProcess := blocks[0], blocks[0], blocks[0];
      keyWaiter, pidCountIdx, tickCount := null, 1, 0;
    }

    static method MakeRings() returns (exits: Queue, keys: Queue)
      ensures exits.Valid() && exits.len == 100 && exits.dataSize == 4 && exits.contents == []
      ensures keys.Valid() && keys.len == 50 && keys.dataSize == 1 && keys.contents == []
      ensures exits != keys && exits.arr != keys.arr && fresh(exits) && fresh(keys) && fresh(exits.arr) && fresh(keys.arr)
    {
      var exitBuffer: array<Byte> := new Byte[400](_ => 0);
      exits := new Queue(exitBuffer, 100, 4);
      var keyBuffer: array<Byte> := new Byte[50](_ => 0);
      keys := new Queue(keyBuffer, 50, 1);
    }

    static method MakeTables() returns (table: array<int>, waiters: array<PCB?>, flags: array<bool>, pages: array<Page.PageEntry>)
      ensures table.Length == PROCESS_MAXCOUNT && forall i :: 0 <= i < PROCESS_MAXCOUNT ==> table[i] == if i == 0 then 1 else 0
      ensures waiters.Length == 2 && waiters[0] == waiters[1] == null && flags.Length == 2 && !flags[0] && !flags[1]
      ensures Page.Memory(pages) && Page.LowTables(pages[..], {})
      ensures fresh(table) && fresh(waiters) && fresh(flags) && fresh(pages)
    {
      table := new int[PROCESS_MAXCOUNT](i => if i == 0 then 1 else 0);
      waiters := new PCB?[2](_ => null);
      flags := new bool[2](_ => false);
      pages := new Page.PageEntry[Page.TABLES_END / 8](_ => Page.EMPTY);
      Page.InitializePaging(pages);
      Page.LowOfTables(pages[..], {});
    }

    /** What the constructor leaves. */
    ghost predicate AtBoot(mutexCount: nat)
      reads *
    {
      Wired() && |mutexes| == mutexCount && BlocksAtBoot() && DevicesAtBoot()
    }

    ghost predicate BlocksAtBoot()
      reads *
      requires Wired()
    {
      && (forall l :: 0 <= l < |lists| ==> lists[l].Valid() && lists[l].nodes == [])
      && (forall i :: 0 <= i < |pool| ==> pool[i].state == (if i == 0 then Running else Exited) && pool[i].wakeupTick == 0 && pool[i].id == i)
      && (forall m :: 0 <= m < |mutexes| ==> mutexes[m] in locks && mutexes[m].pid == -1 && mutexes[m].count == 0)
      && runningProcess == idleProcess == collectorProcess == pool[0]
    }

    ghost predicate DevicesAtBoot()
      reads *
      requires Wired()
    {
      && exitProcessQueue.Valid() && exitProcessQueue.len == 100 && exitProcessQueue.dataSize == 4 && exitProcessQueue.contents == []
      && keyQueue.Valid() && keyQueue.len == 50 && keyQueue.dataSize == 1 && keyQueue.contents == []
      && (forall i :: 0 <= i < PROCESS_MAXCOUNT ==> allocProcessTable[i] == if i == 0 then 1 else 0)
      && diskWaiter[0] == diskWaiter[1] == null && !interruptOccur[0] && !interruptOccur[1]
      && Page.LowTables(page[..], {})
      && keyWaiter == null && pidCountIdx == 1 && tickCount == 0
    }

    lemma BootRepresents(mutexCount: nat)
      requires AtBoot(mutexCount)
      ensures Represents(Raw(mutexCount))
    {
      RawLists(mutexCount);
    }

    method SetIdle(ghost k: Kernel, pcb: PCB, ghost p: Pid)
      requires Represents(k) && pcb == pool[p]
      modifies this`idleProcess
      ensures Represents(k.(idle := p)) && idleProcess == pcb
    {
      hide Linked, StateBytes, WakeTicks, Slots, Locks, ExitRing, KeyRing, KeyWaiterIs, DiskWaitersAre, FlagsAre, PageBits;
      assert ListsOf(k.(idle := p)) == ListsOf(k);
      idleProcess := pcb;
    }

    method SetCollector(ghost k: Kernel, pcb: PCB, ghost p: Pid)
      requires Represents(k) && pcb == pool[p]
      modifies this`collectorProcess
      ensures Represents(k.(collector := p))
    {
      hide Linked, StateBytes, WakeTicks, Slots, Locks, ExitRing, KeyRing, KeyWaiterIs, DiskWaitersAre, FlagsAre, PageBits;
      assert ListsOf(k.(collector := p)) == ListsOf(k);
      collectorProcess := pcb;
    }

    method CutReady(ghost k: Kernel, id: int, ghost p: Pid)
      requires Represents(k) && id == p
      modifies processList, pcbs`next
      ensures Represents(k.(ready := Common.Remove(k.ready, p)))
    {
      hide Linked, StateBytes, WakeTicks, Slots, Locks, ExitRing, KeyRing, KeyWaiterIs, DiskWaitersAre, FlagsAre, PageBits, Apart;
      ghost var w := k.(ready := Common.Remove(k.ready, p));
      assert ListsOf(w) == ListsOf(k)[0 := w.ready];
      var removed := CutOut(ListsOf(k), 0, processList, id, p);
    }

    /** initScheduler: create the collector and idle, and take idle off the ready list again. */
    method InitScheduler(mutexCount: nat)
      requires AtBoot(mutexCount)
      modifies this, processList, pcbs, allocProcessTable
      ensures Represents(Boot(mutexCount))
    {
      hide Represents, AtBoot, Probe, CreateStep, Nowhere, Layout, CanCreate, CanTake, Boot, Raw, Apart;
      BootRepresents(mutexCount);
      ghost var k := Raw(mutexCount);
      InitFacts(mutexCount);
      BlockSays(k, 0);
      var pcb := CreateProcess(k);
      ghost var k1 := CreateStep(k, KernelProcess);
      SetCollector(k1, pcb, 1);
      ghost var k2 := k1.(collector := 1);
      pcb := CreateProcess(k2);
      ghost var k3 := CreateStep(k2, KernelProcess);
      SetIdle(k3, pcb, 2);
      CutReady(k3.(idle := 2), idleProcess.id, 2);
    }

    /** The processes slots of PCB_POOL_ADDRESS: one block per slot. */
    static method MakePool() returns (ps: seq<PCB>, ghost s: set<PCB>)
      ensures |ps| == PROCESS_MAXCOUNT && fresh(s) && (forall i :: 0 <= i < |ps| ==> ps[i] in s)
      ensures forall i, j :: 0 <= i < j < |ps| ==> ps[i] != ps[j]
      ensures forall i :: 0 <= i < |ps| ==> ps[i].state == (if i == 0 then Running else Exited) && ps[i].wakeupTick == 0 && ps[i].id == i
    {
      ps, s := [], {};
      for i := 0 to PROCESS_MAXCOUNT
        invariant |ps| == i && fresh(s) && forall j :: 0 <= j < i ==> ps[j] in s
        invariant forall j, l :: 0 <= j < l < |ps| ==> ps[j] != ps[l]
        invariant forall j :: 0 <= j < i ==> ps[j].state == (if j == 0 then Running else Exited) && ps[j].wakeupTick == 0 && ps[j].id == j
      {
        var p := new PCB(i);
        if i == 0 {
          p.state := Running;
        }
        ps, s := ps + [p], s + {p};
      }
    }

    /** The ready list, the sleep list and the mutexes with their wait lists. */
    static method MakeLists(n: nat)
      returns (ready: LinkedList, sleep: LinkedList, ls: seq<Lock>, ghost s: set<Lock>, ghost family: seq<LinkedList>, ghost members: set<LinkedList>)
      ensures |ls| == n && |family| == 2 + n && family[0] == ready && family[1] == sleep && fresh(s) && fresh(members)
      ensures forall a, b :: 0 <= a < b < |family| ==> family[a] != family[b]
      ensures forall a :: 0 <= a < |family| ==> family[a] in members && family[a].Valid() && family[a].nodes == []
      ensures forall i :: 0 <= i < n ==> ls[i] in s && ls[i].waitList == family[2 + i] && ls[i].pid == -1 && ls[i].count == 0
      ensures forall i, j :: 0 <= i < j < n ==> ls[i] != ls[j]
    {
      ready := new LinkedList();
      sleep := new LinkedList();
      ghost var waits;
      ls, s, waits := MakeLocks(n);
      family := [ready, sleep] + waits;
      members := {ready, sleep} + set l | l in waits;
      forall a | 0 <= a < |family| ensures family[a] in members {
        if a >= 2 { assert family[a] == waits[a - 2]; }
      }
    }

    static method MakeLocks(n: nat) returns (ls: seq<Lock>, ghost s: set<Lock>, ghost waits: seq<LinkedList>)
      ensures |ls| == n == |waits| && fresh(s) && (forall i :: 0 <= i < n ==> ls[i] in s && ls[i].waitList == waits[i] && fresh(waits[i]))
      ensures forall i, j :: 0 <= i < j < n ==> ls[i] != ls[j] && waits[i] != waits[j]
      ensures forall i :: 0 <= i < n ==> ls[i].pid == -1 && ls[i].count == 0 && waits[i].Valid() && waits[i].nodes == []
    {
      ls, s, waits := [], {}, [];
      for i := 0 to n
        invariant |ls| == i == |waits| && fresh(s)
        invariant forall j :: 0 <= j < i ==> ls[j] in s && ls[j].waitList == waits[j] && fresh(waits[j])
        invariant forall j, l :: 0 <= j < l < i ==> ls[j] != ls[l] && waits[j] != waits[l]
        invariant forall j :: 0 <= j < i ==> ls[j].pid == -1 && ls[j].count == 0 && waits[j].Valid() && waits[j].nodes == []
      {
        var m := new Lock();
        ls, s, waits := ls + [m], s + {m}, waits + [m.waitList];
      }
    }

    /** The control blocks are pairwise different objects, and so are the lists. */
    ghost predicate Layout() {
      && |pool| == PROCESS_MAXCOUNT
      && (forall i, j :: 0 <= i < j < |pool| ==> pool[i] != pool[j])
      && (forall i :: 0 <= i < |pool| ==> pool[i] in pcbs)
      && (forall a, b :: 0 <= a < b < |lists| ==> lists[a] != lists[b])
      && (forall a :: 0 <= a < |lists| ==> lists[a] in queues)
    }

    /** The links in memory spell out the lists `q`. */
    ghost predicate Linked(q: seq<seq<Pid>>)
      reads queues, pcbs`next, pcbs`id
    {
      && Layout() && |q| == |lists|
      && (forall a :: 0 <= a < |lists| ==> Names(pool, pcbs, lists[a].nodes, q[a]) && lists[a].Valid())
      && (forall a, p: Pid :: 0 <= a < |q| && p in q[a] ==> pool[p].id == p)
      && Apart(q)
    }

    /** Different lists share no node. */
    lemma NodesApart(q: seq<seq<Pid>>, a: nat)
      requires Linked(q) && a < |lists|
      ensures forall b :: 0 <= b < |lists| && b != a ==>
                lists[b] != lists[a] && forall n :: n in lists[b].nodes ==> n !in lists[a].nodes
      ensures forall i :: 0 <= i < |q[a]| ==> lists[a].nodes[i].id == q[a][i]
      ensures forall b :: 0 <= b < |lists| ==> lists[b].Valid()
    {
      forall b, n | 0 <= b < |lists| && b != a && n in lists[b].nodes ensures n !in lists[a].nodes {
        var i :| 0 <= i < |q[b]| && lists[b].nodes[i] == n;
        assert q[b][i] in q[b] && q[b][i] !in q[a];
      }
      forall i | 0 <= i < |q[a]| ensures lists[a].nodes[i].id == q[a][i] {
        assert q[a][i] in q[a];
      }
    }

    lemma NodesNamed(q: seq<seq<Pid>>, a: nat)
      requires Linked(q) && a < |lists|
      ensures |pool| == PROCESS_MAXCOUNT && |lists[a].nodes| == |q[a]|
      ensures forall i :: 0 <= i < |q[a]| ==> lists[a].nodes[i] == pool[q[a][i]] && lists[a].nodes[i] in pcbs
    {
      hide Apart;
    }

    /** insertList on one of the lists. */
    method Push(ghost q: seq<seq<Pid>>, ghost a: nat, list: LinkedList, pcb: PCB, ghost p: Pid)
      requires Linked(q) && a < |lists| && list == lists[a] && pcb == pool[p] && pcb.id == p && Nowhere(q, p)
      modifies list, pcbs`next
      ensures Linked(q[a := q[a] + [p]])
    {
      forall b | 0 <= b < |lists| ensures pcb !in lists[b].nodes {
        assert p !in q[b];
      }
      NodesApart(q, a);
      list.Insert(pcb);
      forall b | 0 <= b < |lists| && b != a ensures lists[b].Valid() {
        assert old(lists[b].Valid()) && forall n :: n in lists[b].nodes ==> n.next == old(n.next);
      }
      PushApart(q, a, p);
      assert Names(pool, pcbs, list.nodes, q[a] + [p]);
    }

    /** removeList on one of the lists, `at` being where the node was. */
    method Take(ghost q: seq<seq<Pid>>, ghost a: nat, list: LinkedList, id: int, ghost p: Pid) returns (removed: PCB?, ghost at: nat)
      requires id == p && Linked(q) && a < |lists| && list == lists[a]
      modifies list, pcbs`next
      ensures at <= |q[a]| && forall j :: 0 <= j < at ==> q[a][j] != p
      ensures at == |q[a]| ==> removed == null && Linked(q)
      ensures at < |q[a]| ==> removed == pool[p] && q[a][at] == p && Linked(q[a := q[a][..at] + q[a][at + 1..]])
    {
      hide Apart, Layout, Names, LinkedList.Valid;
      NodesApart(q, a);
      NodesNamed(q, a);
      ghost var was := list.nodes;
      removed, at := list.Remove(id);
      forall b | 0 <= b < |lists| && b != a ensures lists[b].Valid() {
        assert old(lists[b].Valid()) && forall n :: n in lists[b].nodes ==> n.next == old(n.next);
      }
      if at < |q[a]| {
        NamesCut(pool, pcbs, was, q, a, at);
        CutLinked(q, a, at);
      }
    }

    lemma CutLinked(q: seq<seq<Pid>>, a: nat, at: nat)
      requires Layout() && |q| == |lists| && a < |q| && at < |q[a]| && Apart(q)
      requires forall b :: 0 <= b < |lists| ==>
                 lists[b].Valid() && Names(pool, pcbs, lists[b].nodes, q[a := q[a][..at] + q[a][at + 1..]][b])
      requires forall b, p: Pid :: 0 <= b < |q| && p in q[b] ==> pool[p].id == p
      ensures Linked(q[a := q[a][..at] + q[a][at + 1..]])
    {
      hide Names;
      var cut := q[a][..at] + q[a][at + 1..];
      assert forall p :: p in cut ==> p in q[a];
      assert forall b, p: Pid :: 0 <= b < |q| && p in q[a := cut][b] ==> p in q[b];
    }

    /** removeList on one of the lists. */
    method CutOut(ghost q: seq<seq<Pid>>, ghost a: nat, list: LinkedList, id: int, ghost p: Pid) returns (removed: PCB?)
      requires id == p && Linked(q) && a < |lists| && list == lists[a]
      modifies list, pcbs`next
      ensures Linked(q[a := Common.Remove(q[a], p)])
      ensures removed == if p in q[a] then pool[p] else null
    {
      assert NoDup(q[a]);
      ghost var at;
      removed, at := Take(q, a, list, id, p);
      hide Linked;
      if at == |q[a]| {
        RemoveAbsent(q[a], p);
        assert q[a := q[a]] == q;
      } else {
        RemoveAt(q[a], at);
      }
    }

    /** HeadRemove on one of the lists. */
    method Pop(ghost q: seq<seq<Pid>>, ghost a: nat, list: LinkedList) returns (removed: PCB?)
      requires Linked(q) && a < |lists| && list == lists[a]
      modifies list, pcbs`next
      ensures q[a] == [] ==> removed == null && Linked(q)
      ensures q[a] != [] ==> removed == pool[q[a][0]] && Linked(q[a := q[a][1..]])
    {
      NodesApart(q, a);
      removed := list.HeadRemove();
      forall b | 0 <= b < |lists| && b != a ensures lists[b].Valid() {
        assert old(lists[b].Valid()) && forall n :: n in lists[b].nodes ==> n.next == old(n.next);
      }
      if q[a] != [] {
        CutApart(q, a, q[a][1..]);
      }
    }

    // -------------------------------------------------------------- what the memory says

    /** Which list is which. */
    ghost predicate Wired() {
      && Layout() && |lists| == 2 + |mutexes| && lists[0] == processList && lists[1] == sleepList
      && (forall m :: 0 <= m < |mutexes| ==> lists[2 + m] == mutexes[m].waitList)
      && (forall m, n :: 0 <= m < n < |mutexes| ==> mutexes[m] != mutexes[n])
      && exitProcessQueue != keyQueue && exitProcessQueue.arr != keyQueue.arr
      && allocProcessTable.Length == PROCESS_MAXCOUNT && diskWaiter.Length == 2 && interruptOccur.Length == 2
      && Page.Memory(page)
    }

    // one predicate for each kind of memory, so that a region disturbs only what it writes

    ghost predicate StateBytes(st: States)
      reads pcbs`state
      requires Wired()
    {
      forall p: Pid :: pool[p].state == st[p]
    }

    ghost predicate WakeTicks(wake: Ticks)
      reads pcbs`wakeupTick
      requires Wired()
    {
      forall p: Pid :: pool[p].wakeupTick == wake[p]
    }

    /** The slot table, and the ids of the blocks in use. */
    ghost predicate Slots(alloc: Marks)
      reads pcbs`id, allocProcessTable
      requires Wired()
    {
      forall p: Pid :: allocProcessTable[p] == (if alloc[p] then 1 else 0) && (alloc[p] ==> pool[p].id == p)
    }

    ghost predicate OnCpuIs(running: Pid)
      reads this`runningProcess
      requires Wired()
    {
      runningProcess == pool[running]
    }

    ghost predicate Fixed(idle: Pid, collector: Pid)
      reads this`idleProcess, this`collectorProcess
      requires Wired()
    {
      idleProcess == pool[idle] && collectorProcess == pool[collector]
    }

    ghost predicate Locks(ms: seq<Mutex>)
      reads locks
    {
      |ms| == |mutexes| && (forall m :: 0 <= m < |mutexes| ==> mutexes[m] in locks) && forall m :: 0 <= m < |ms| ==>
        mutexes[m].pid == (if ms[m].owner.None? then -1 else ms[m].owner.value) && mutexes[m].count == ms[m].count
    }

    ghost predicate ExitRing(exits: seq<Pid>)
      reads exitProcessQueue, exitProcessQueue.arr
    {
      var r := exitProcessQueue;
      && r.Valid() && r.len == EXIT_CAPACITY + 1 && r.dataSize == 4 && |r.contents| == |exits|
      && forall i :: 0 <= i < |exits| ==> r.contents[i] == Bytes(exits[i])
    }

    ghost predicate KeyRing(keys: seq<Byte>)
      reads keyQueue, keyQueue.arr
    {
      var r := keyQueue;
      && r.Valid() && r.len == KEY_CAPACITY + 1 && r.dataSize == 1 && |r.contents| == |keys|
      && forall i :: 0 <= i < |keys| ==> r.contents[i] == [keys[i]]
    }

    function BlockOf(w: Option<Pid>): PCB?
      requires Layout()
    {
      if w.None? then null else pool[w.value]
    }

    ghost predicate KeyWaiterIs(w: Option<Pid>)
      reads this`keyWaiter
      requires Wired()
    {
      keyWaiter == BlockOf(w)
    }

    ghost predicate DiskWaitersAre(dw: DiskWaiters)
      reads diskWaiter
      requires Wired()
    {
      forall ch: Channel :: diskWaiter[ch] == BlockOf(dw[ch])
    }

    ghost predicate FlagsAre(flag: Flags)
      reads interruptOccur
      requires Wired()
    {
      forall ch: Channel :: interruptOccur[ch] == flag[ch]
    }

    ghost predicate PageBits(us: set<nat>)
      reads page
      requires Wired()
    {
      Page.LowTables(page[..], us) && forall pg :: pg in us ==> pg < Page.PRESENT_PAGES
    }

    /** The memory represents the model state `k`. */
    ghost predicate Represents(k: Kernel)
      reads *
    {
      && Wired() && Linked(ListsOf(k)) && StateBytes(k.st) && WakeTicks(k.wake) && Slots(k.alloc) && OnCpuIs(k.running)
      && Fixed(k.idle, k.collector) && pidCountIdx == k.nextPid && tickCount == k.tick
      && Locks(k.mutexes) && ExitRing(k.exits) && KeyRing(k.keys)
      && KeyWaiterIs(k.keyWaiter) && DiskWaitersAre(k.diskWaiter) && FlagsAre(k.flag) && PageBits(k.us)
    }

    /** What the block of a process, and the list headers, say. */
    lemma BlockSays(k: Kernel, p: Pid)
      requires Represents(k)
      ensures pool[p].state == k.st[p] && pool[p].wakeupTick == k.wake[p] && (k.alloc[p] ==> pool[p].id == p)
      ensures forall r: Pid :: pool[r] == pool[p] ==> r == p
      ensures |pool| == PROCESS_MAXCOUNT && Wired() && processList in queues && sleepList in queues
      ensures runningProcess == pool[k.running] && idleProcess == pool[k.idle] && collectorProcess == pool[k.collector]
      ensures processList.count == |k.ready| && Apart(ListsOf(k)) && tickCount == k.tick && pidCountIdx == k.nextPid
    {
      assert lists[0].Valid() && Names(pool, pcbs, lists[0].nodes, k.ready);
    }

    // -------------------------------------------------------------- single writes, as moves of the model

    /** A continuation is where a process is in its code, not something in memory. */
    lemma SetCont(k: Kernel, cont: Conts)
      requires Represents(k)
      ensures Represents(k.(cont := cont))
    {
      assert ListsOf(k.(cont := cont)) == ListsOf(k);
    }

    method SetState(ghost k: Kernel, pcb: PCB, ghost p: Pid, s: ProcState)
      requires Represents(k) && pcb == pool[p]
      modifies pcbs`state
      ensures Represents(k.(st := k.st[p := s]))
    {
      hide Linked, WakeTicks, Slots, Locks, ExitRing, KeyRing, KeyWaiterIs, DiskWaitersAre, FlagsAre, PageBits;
      assert ListsOf(k.(st := k.st[p := s])) == ListsOf(k);
      pcb.state := s;
    }

    method SetWake(ghost k: Kernel, pcb: PCB, ghost p: Pid, tick: nat)
      requires Represents(k) && pcb == pool[p]
      modifies pcbs`wakeupTick
      ensures Represents(k.(wake := k.wake[p := tick]))
    {
      hide Linked, StateBytes, Slots, Locks, ExitRing, KeyRing, KeyWaiterIs, DiskWaitersAre, FlagsAre, PageBits;
      assert ListsOf(k.(wake := k.wake[p := tick])) == ListsOf(k);
      pcb.wakeupTick := tick;
    }

    method SetRunning(ghost k: Kernel, pcb: PCB, ghost p: Pid)
      requires Represents(k) && pcb == pool[p]
      modifies this`runningProcess
      ensures Represents(k.(running := p))
    {
      hide Linked, StateBytes, WakeTicks, Slots, Locks, ExitRing, KeyRing, KeyWaiterIs, DiskWaitersAre, FlagsAre, PageBits;
      assert ListsOf(k.(running := p)) == ListsOf(k);
      runningProcess := pcb;
    }

    method PushReady(ghost k: Kernel, pcb: PCB, ghost p: Pid)
      requires Represents(k) && pcb == pool[p] && Nowhere(ListsOf(k), p) && pcb.id == p
      modifies processList, pcbs`next
      ensures Represents(k.(ready := k.ready + [p]))
    {
      hide Linked, StateBytes, WakeTicks, Slots, Locks, ExitRing, KeyRing, KeyWaiterIs, DiskWaitersAre, FlagsAre, PageBits, Nowhere, Apart, Layout;
      BlockSays(k, p);
      assert ListsOf(k.(ready := k.ready + [p])) == ListsOf(k)[0 := k.ready + [p]];
      Push(ListsOf(k), 0, processList, pcb, p);
    }

    method PushSleeping(ghost k: Kernel, pcb: PCB, ghost p: Pid)
      requires Represents(k) && pcb == pool[p] && Nowhere(ListsOf(k), p) && pcb.id == p
      modifies sleepList, pcbs`next
      ensures Represents(k.(sleeping := k.sleeping + [p]))
    {
      hide Linked, StateBytes, WakeTicks, Slots, Locks, ExitRing, KeyRing, KeyWaiterIs, DiskWaitersAre, FlagsAre, PageBits, Nowhere, Apart, Layout;
      BlockSays(k, p);
      assert ListsOf(k.(sleeping := k.sleeping + [p])) == ListsOf(k)[1 := k.sleeping + [p]];
      Push(ListsOf(k), 1, sleepList, pcb, p);
    }

    method PopReady(ghost k: Kernel) returns (next: PCB?)
      requires Represents(k)
      modifies processList, pcbs`next
      ensures k.ready == [] ==> next == null && Represents(k)
      ensures k.ready != [] ==> next == pool[k.ready[0]] && Represents(k.(ready := k.ready[1..]))
    {
      hide Linked, StateBytes, WakeTicks, Slots, Locks, ExitRing, KeyRing, KeyWaiterIs, DiskWaitersAre, FlagsAre, PageBits, Apart;
      ghost var w := k.(ready := if k.ready == [] then [] else k.ready[1..]);
      assert ListsOf(w) == if k.ready == [] then ListsOf(k) else ListsOf(k)[0 := k.ready[1..]];
      next := Pop(ListsOf(k), 0, processList);
    }

    method CutSleeping(ghost k: Kernel, id: int, ghost p: Pid)
      requires Represents(k) && id == p
      modifies sleepList, pcbs`next
      ensures Represents(k.(sleeping := Common.Remove(k.sleeping, p)))
    {
      hide Linked, StateBytes, WakeTicks, Slots, Locks, ExitRing, KeyRing, KeyWaiterIs, DiskWaitersAre, FlagsAre, PageBits, Apart;
      ghost var w := k.(sleeping := Common.Remove(k.sleeping, p));
      assert ListsOf(w) == ListsOf(k)[1 := w.sleeping];
      var removed := CutOut(ListsOf(k), 1, sleepList, id, p);
    }

    // -------------------------------------------------------------- scheduler primitives

    /** scheduleBlocked, up to the context switch. */
    method ScheduleBlocked(ghost k: Kernel)
      requires Represents(k)
      modifies this`runningProcess, processList, pcbs`next, pcbs`state
      ensures Represents(Dispatch(k))
    {
      hide Represents, Layout, Apart;
      ghost var w := Dispatch(k);
      BlockSays(k, k.idle);
      var next := PopReady(k);
      ghost var k1 := k.(ready := w.ready);
      BlockSays(k1, w.running);
      if next == null {
        next := idleProcess;
      }
      SetState(k1, next, w.running, Running);
      SetRunning(k1.(st := w.st), next, w.running);
      assert k1.(st := w.st, running := w.running) == w;
    }

    /** blockRunningProcess. */
    method BlockRunningProcess(ghost k: Kernel, ghost c: Cont)
      requires Represents(k)
      modifies this`runningProcess, processList, pcbs`next, pcbs`state
      ensures Represents(Block(k, c))
    {
      hide Represents, Layout, Apart, Dispatch;
      BlockSays(k, k.running);
      SetState(k, runningProcess, k.running, Blocked);
      ghost var k1 := k.(st := k.st[k.running := Blocked]);
      SetCont(k1, k.cont[k.running := c]);
      ScheduleBlocked(k.(st := k.st[k.running := Blocked], cont := k.cont[k.running := c]));
    }

    /** sleepUntilTick. */
    method SleepUntilTick(ghost k: Kernel, tick: nat, ghost c: Cont)
      requires Represents(k) && Nowhere(ListsOf(k), k.running) && k.alloc[k.running]
      modifies this`runningProcess, processList, sleepList, pcbs`next, pcbs`state, pcbs`wakeupTick
      ensures Represents(SleepUntil(k, tick, c))
    {
      hide Represents, Layout, Apart, Block, Nowhere;
      BlockSays(k, k.running);
      var cur := runningProcess;
      SetWake(k, cur, k.running, tick);
      ghost var k1 := k.(wake := k.wake[k.running := tick]);
      SameLists(k, k1);
      PushSleeping(k1, cur, k.running);
      BlockRunningProcess(k1.(sleeping := k.sleeping + [k.running]), c);
    }

    /** wakeupProcess. */
    method WakeupProcess(ghost k: Kernel, pcb: PCB?, ghost p: Option<Pid>) returns (woken: bool)
      requires Represents(k) && Layout() && pcb == BlockOf(p) && (p.Some? ==> OnlySleeping(k, p.value))
      modifies processList, sleepList, pcbs`next, pcbs`state
      ensures woken == (p.Some? && k.st[p.value] == Blocked)
      ensures Represents(if p.Some? then Wakeup(k, p.value) else k)
    {
      hide Represents, Layout, Apart, OnlySleeping, Nowhere;
      if p.Some? {
        BlockSays(k, p.value);
      }
      if pcb == null || pcb.state != Blocked {
        return false;
      }
      ghost var x := p.value;
      ghost var w := Wakeup(k, x);
      WakeNowhere(k, x);
      CutSleeping(k, pcb.id, x);
      ghost var k1 := k.(sleeping := w.sleeping);
      SetState(k1, pcb, x, Ready);
      SameLists(k1, k1.(st := w.st));
      PushReady(k1.(st := w.st), pcb, x);
      return true;
    }

    /** timeoutSchedule; the copies into and out of the interrupt frame are modelled separately. */
    method TimeoutSchedule(ghost k: Kernel)
      requires Represents(k)
      requires k.running != k.idle ==> Nowhere(ListsOf(k), k.running) && k.alloc[k.running]
      modifies this`runningProcess, processList, pcbs`next, pcbs`state
      ensures Represents(Timeout(k))
    {
      hide Represents, Layout, Apart, Nowhere;
      BlockSays(k, k.running);
      if processList.count == 0 {
        return;
      }
      BlockSays(k, k.idle);
      ghost var w := Timeout(k);
      var nextProcess := PopReady(k);
      ghost var k1 := k.(ready := k.ready[1..]);
      BlockSays(k1, w.running);
      var curProcess := runningProcess;
      assert k1.running == k.running && nextProcess == pool[w.running];
      if curProcess != idleProcess {
        BlockSays(k1, k.running);
        DropNowhere(k, k.running);
        SetState(k1, curProcess, k.running, Ready);
        ghost var k2 := k1.(st := k.st[k.running := Ready]);
        SameLists(k1, k2);
        PushReady(k2, curProcess, k.running);
        k1 := k2.(ready := k1.ready + [k.running]);
      }
      SetState(k1, nextProcess, w.running, Running);
      SetRunning(k1.(st := w.st), nextProcess, w.running);
      assert k1.(st := w.st, running := w.running) == w;
    }

    /** wakeupProcessInInterrupt: a process woken while idle runs takes over at once. */
    method WakeupProcessInInterrupt(ghost k: Kernel, pcb: PCB?, ghost p: Option<Pid>)
      requires Represents(k) && Layout() && pcb == BlockOf(p) && (p.Some? ==> OnlySleeping(k, p.value))
      modifies this`runningProcess, processList, sleepList, pcbs`next, pcbs`state
      ensures Represents(WakeupInInterrupt(k, p))
    {
      assert p.Some? && k.st[p.value] != Blocked ==> Wakeup(k, p.value) == k;
      hide Represents, Layout, Apart, OnlySleeping, Wakeup;
      var woken := WakeupProcess(k, pcb, p);
      if !woken {
        return;
      }
      ghost var w := Wakeup(k, p.value);
      BlockSays(w, w.running);
      BlockSays(w, w.idle);
      if runningProcess == idleProcess {
        TimeoutSchedule(w);
      }
    }

    // -------------------------------------------------------------- the timer interrupt

    /** What the nodes ahead of the walk say. */
    lemma WalkSays(k: Kernel, w: Kernel, kept: seq<Pid>, ps: seq<Pid>)
      requires Represents(w) && Walking(k, w, kept, ps)
      ensures Layout()
      ensures kept == [] ==> sleepList.head == BlockOf(First(ps))
      ensures ps != [] ==> pool[ps[0]].next == BlockOf(First(ps[1..]))
    {
      var s := w.sleeping;
      assert lists[1].Valid() && Names(pool, pcbs, lists[1].nodes, s);
      if ps != [] {
        assert s[|kept|] == ps[0] && lists[1].nodes[|kept|] == pool[ps[0]];
        if |ps| > 1 {
          assert s[|kept| + 1] == ps[1];
        }
      }
    }

    /** One turn of the loop: the successor is read before the node can leave the list. */
    method VisitSleeper(ghost k: Kernel, ghost w: Kernel, ghost kept: seq<Pid>, ghost ps: seq<Pid>, cur: PCB)
      returns (next: PCB?, ghost w': Kernel, ghost kept': seq<Pid>)
      requires Represents(w) && Walking(k, w, kept, ps) && Layout() && ps != [] && cur == pool[ps[0]]
      modifies processList, sleepList, pcbs`next, pcbs`state
      ensures Represents(w') && Walking(k, w', kept', ps[1..])
      ensures next == BlockOf(First(ps[1..]))
    {
      WalkStep(k, w, kept, ps);
      hide Represents, Walking, Apart, OnlySleeping, Wakeup;
      WalkSays(k, w, kept, ps);
      next := cur.next;
      BlockSays(w, ps[0]);
      w', kept' := w, kept + [ps[0]];
      if tickCount >= cur.wakeupTick {
        var woken := WakeupProcess(w, cur, Some(ps[0]));
        w', kept' := Wakeup(w, ps[0]), kept;
      }
    }

    /** wakeExpiredProcess. */
    method WakeExpiredProcess(ghost k: Kernel)
      requires Represents(k) && Core(k) && OnCpu(k) && k.cont[k.running] == Free
      modifies processList, sleepList, pcbs`next, pcbs`state
      ensures Represents(WakeExpired(k, k.sleeping))
    {
      hide Represents, Core, OnCpu, Apart, Walking, WakeExpired, Layout, NoDup;
      WalkStart(k);
      ghost var w, kept, ps: seq<Pid> := k, [], k.sleeping;
      WalkSays(k, w, kept, ps);
      var cur := sleepList.head;
      while cur != null
        invariant Represents(w) && Walking(k, w, kept, ps) && Layout() && cur == BlockOf(First(ps))
        decreases |ps|
      {
        cur, w, kept := VisitSleeper(k, w, kept, ps, cur);
        ps := ps[1..];
      }
      WalkDone(k, w, kept);
    }

    method SetTick(ghost k: Kernel)
      requires Represents(k)
      modifies this`tickCount
      ensures Represents(k.(tick := k.tick + 1))
    {
      hide Linked, StateBytes, WakeTicks, Slots, Locks, ExitRing, KeyRing, KeyWaiterIs, DiskWaitersAre, FlagsAre, PageBits;
      assert ListsOf(k.(tick := k.tick + 1)) == ListsOf(k);
      tickCount := tickCount + 1;
    }

    /** timerInterruptHandler. */
    method TimerInterruptHandler(ghost k: Kernel)
      requires Represents(k) && Ok(k) && Enabled(k, Tick)
      modifies this`tickCount, this`runningProcess, processList, sleepList, pcbs`next, pcbs`state
      ensures Represents(Step(k, Tick))
    {
      hide Represents, Core, OnCpu, WakeExpired, Timeout, Apart;
      ghost var k1 := k.(tick := k.tick + 1);
      SetTick(k);
      TickForward(k);
      WakeExpiredProcess(k1);
      WakeExpiredCore(k1, k1.sleeping);
      ghost var w := WakeExpired(k1, k1.sleeping);
      CoreRunningNowhere(w);
      TimeoutSchedule(w);
    }

    // -------------------------------------------------------------- sleeping and mutexes

    /** sleepProcess, in 64-bit arithmetic. */
    method SleepProcess(ghost k: Kernel, ms: nat)
      requires Represents(k) && Ok(k) && Enabled(k, Sleep(ms))
      modifies this`runningProcess, processList, sleepList, pcbs`next, pcbs`state, pcbs`wakeupTick
      ensures Represents(Step(k, Sleep(ms)))
    {
      hide Represents, Ok, SleepUntil, Apart, Nowhere, Enabled, Step, Layout, Core, OnCpu;
      CallFacts(k, Sleep(ms));
      BlockSays(k, k.running);
      SleepUntilTick(k, (tickCount + (ms + SLOT_TIME - 1) % QWORD / SLOT_TIME) % QWORD, Sleeping);
    }

    /** What a mutex in memory says. */
    lemma LockSays(k: Kernel, m: nat)
      requires Represents(k) && m < |k.mutexes|
      ensures |mutexes| == |k.mutexes| && m < |mutexes| && mutexes[m] in locks && mutexes[m].waitList in queues
      ensures mutexes[m].pid == (if k.mutexes[m].owner.None? then -1 else k.mutexes[m].owner.value)
      ensures mutexes[m].count == k.mutexes[m].count
    {
      assert lists[2 + m] == mutexes[m].waitList;
    }

    method SetOwner(ghost k: Kernel, mutex: Lock, ghost m: nat, pid: int, count: nat, ghost owner: Option<Pid>)
      requires Represents(k) && m < |k.mutexes| && m < |mutexes| && mutex == mutexes[m]
      requires pid == if owner.None? then -1 else owner.value
      modifies mutex`pid, mutex`count
      ensures Represents(k.(mutexes := k.mutexes[m := k.mutexes[m].(owner := owner, count := count)]))
      ensures mutex.pid == pid && mutex.count == count
    {
      hide Linked, StateBytes, WakeTicks, Slots, ExitRing, KeyRing, KeyWaiterIs, DiskWaitersAre, FlagsAre, PageBits, Apart;
      assert ListsOf(k.(mutexes := k.mutexes[m := k.mutexes[m].(owner := owner, count := count)])) == ListsOf(k);
      mutex.pid := pid;
      mutex.count := count;
    }

    method PushWaiter(ghost k: Kernel, mutex: Lock, ghost m: nat, pcb: PCB, ghost p: Pid)
      requires Represents(k) && m < |k.mutexes| && m < |mutexes| && mutex == mutexes[m]
      requires pcb == pool[p] && Nowhere(ListsOf(k), p) && k.alloc[p]
      modifies mutex.waitList, pcbs`next
      ensures Represents(k.(mutexes := k.mutexes[m := k.mutexes[m].(waiters := k.mutexes[m].waiters + [p])]))
    {
      hide Linked, StateBytes, WakeTicks, Slots, Locks, ExitRing, KeyRing, KeyWaiterIs, DiskWaitersAre, FlagsAre, PageBits, Nowhere, Apart, Layout;
      BlockSays(k, p);
      ghost var w := k.(mutexes := k.mutexes[m := k.mutexes[m].(waiters := k.mutexes[m].waiters + [p])]);
      WaitersUpdate(k, w, m);
      Push(ListsOf(k), 2 + m, mutex.waitList, pcb, p);
      assert Locks(w.mutexes) by { LocksSame(k.mutexes, w.mutexes); }
    }

    method PopWaiter(ghost k: Kernel, mutex: Lock, ghost m: nat) returns (next: PCB?)
      requires Represents(k) && m < |k.mutexes| && m < |mutexes| && mutex == mutexes[m]
      modifies mutex.waitList, pcbs`next
      ensures k.mutexes[m].waiters == [] ==> next == null && Represents(k)
      ensures var x := k.mutexes[m]; x.waiters != [] ==>
                next == pool[x.waiters[0]] && Represents(k.(mutexes := k.mutexes[m := x.(waiters := x.waiters[1..])]))
    {
      hide Linked, StateBytes, WakeTicks, Slots, Locks, ExitRing, KeyRing, KeyWaiterIs, DiskWaitersAre, FlagsAre, PageBits, Apart, Layout;
      BlockSays(k, k.running);
      ghost var x := k.mutexes[m];
      ghost var w := if x.waiters == [] then k else k.(mutexes := k.mutexes[m := x.(waiters := x.waiters[1..])]);
      if x.waiters != [] {
        WaitersUpdate(k, w, m);
      }
      next := Pop(ListsOf(k), 2 + m, mutex.waitList);
      assert Locks(w.mutexes) by { LocksSame(k.mutexes, w.mutexes); }
    }

    lemma LocksSame(a: seq<Mutex>, b: seq<Mutex>)
      requires |a| == |b| && forall m :: 0 <= m < |a| ==> a[m].owner == b[m].owner && a[m].count == b[m].count
      ensures Locks(a) ==> Locks(b)
    {
    }

    /** acquireLock. */
    method AcquireLock(ghost k: Kernel, mutex: Lock, ghost m: nat)
      requires Represents(k) && Ok(k) && Enabled(k, Acquire(m)) && m < |mutexes| && mutex == mutexes[m]
      modifies this`runningProcess, locks`pid, locks`count, queues, pcbs`next, pcbs`state
      ensures Represents(Step(k, Acquire(m)))
    {
      hide Represents, Ok, Block, Apart, Nowhere, Layout, Enabled, Step, Core, OnCpu, ListsOf, Linked, Locks, AcquireStep, Wired;
      CallFacts(k, Acquire(m));
      AcquireSays(k, m);
      BlockSays(k, k.running);
      LockSays(k, m);
      ghost var x := k.mutexes[m];
      var currentPid := runningProcess.id;
      if mutex.pid == currentPid {
        SetOwner(k, mutex, m, mutex.pid, (mutex.count + 1) % WORD_LIMIT, x.owner);
      } else if mutex.pid == -1 {
        SetOwner(k, mutex, m, currentPid, 1, Some(k.running));
      } else {
        PushWaiter(k, mutex, m, runningProcess, k.running);
        BlockRunningProcess(k.(mutexes := k.mutexes[m := x.(waiters := x.waiters + [k.running])]), Locking(m));
      }
    }

    /** releaseLock: the last release hands the mutex to the first waiter before waking it. */
    method ReleaseLock(ghost k: Kernel, mutex: Lock, ghost m: nat)
      requires Represents(k) && Ok(k) && Enabled(k, Release(m)) && m < |mutexes| && mutex == mutexes[m]
      modifies this`runningProcess, locks`pid, locks`count, queues, pcbs`next, pcbs`state
      ensures Represents(Step(k, Release(m)))
    {
      hide Represents, Ok, Apart, Nowhere, Layout, Enabled, Step, Core, OnCpu, OnlySleeping, Wakeup, ListsOf, Linked, Locks,
        ReleaseStep, Wired;
      CallFacts(k, Release(m));
      ReleaseSays(k, m);
      BlockSays(k, k.running);
      LockSays(k, m);
      ghost var x := k.mutexes[m];
      if mutex.pid != runningProcess.id {
        return;
      }
      SetOwner(k, mutex, m, mutex.pid, (mutex.count - 1) % WORD_LIMIT, x.owner);
      if mutex.count == 0 {
        GiveUp(k, mutex, m);
      }
    }

    /** The rest of releaseLock once the count is zero. */
    method GiveUp(ghost k: Kernel, mutex: Lock, ghost m: nat)
      requires Ok(k) && m < |k.mutexes| && m < |mutexes| && mutex == mutexes[m]
      requires Represents(k.(mutexes := k.mutexes[m := k.mutexes[m].(count := 0)]))
      modifies locks`pid, locks`count, queues, pcbs`next, pcbs`state
      ensures var x := k.mutexes[m];
              Represents(if x.waiters == [] then k.(mutexes := k.mutexes[m := Mutex(None, 0, [])])
                         else Wakeup(k.(mutexes := k.mutexes[m := Mutex(Some(x.waiters[0]), 1, x.waiters[1..])]), x.waiters[0]))
    {
      hide Represents, Ok, Apart, Nowhere, Layout, OnlySleeping, Wakeup, ListsOf, Linked, Locks, Wired;
      ghost var x := k.mutexes[m];
      ghost var k1 := k.(mutexes := k.mutexes[m := x.(count := 0)]);
      LockSays(k1, m);
      BlockSays(k1, k1.running);
      var next := PopWaiter(k1, mutex, m);
      if next == null {
        SetOwner(k1, mutex, m, -1, 0, None);
        assert k1.mutexes[m := Mutex(None, 0, [])] == k.mutexes[m := Mutex(None, 0, [])];
      } else {
        assert k1.mutexes[m := x.(count := 0, waiters := x.waiters[1..])] == k.mutexes[m := x.(count := 0, waiters := x.waiters[1..])];
        HandOver(k, mutex, m, next);
      }
    }

    /** Ownership passes to the popped waiter, which is then woken. */
    method HandOver(ghost k: Kernel, mutex: Lock, ghost m: nat, next: PCB)
      requires Ok(k) && m < |k.mutexes| && m < |mutexes| && mutex == mutexes[m]
      requires k.mutexes[m].waiters != [] && Layout() && next == pool[k.mutexes[m].waiters[0]]
      requires var x := k.mutexes[m]; Represents(k.(mutexes := k.mutexes[m := x.(count := 0, waiters := x.waiters[1..])]))
      modifies locks`pid, locks`count, queues, pcbs`next, pcbs`state
      ensures var x := k.mutexes[m]; var p := x.waiters[0];
              Represents(Wakeup(k.(mutexes := k.mutexes[m := Mutex(Some(p), 1, x.waiters[1..])]), p))
    {
      hide Represents, Ok, Apart, Nowhere, OnlySleeping, Wakeup;
      ghost var x := k.mutexes[m];
      ghost var p := x.waiters[0];
      ghost var y := Mutex(Some(p), 1, x.waiters[1..]);
      ghost var k2 := k.(mutexes := k.mutexes[m := x.(count := 0, waiters := x.waiters[1..])]);
      HandoffFacts(k, m, y);
      LockSays(k2, m);
      BlockSays(k2, p);
      SetOwner(k2, mutex, m, next.id, 1, Some(p));
      assert k2.mutexes[m := y] == k.mutexes[m := y];
      var woken := WakeupProcess(k.(mutexes := k.mutexes[m := y]), next, Some(p));
    }

    // -------------------------------------------------------------- the keyboard

    /** enQueue on the key queue; a key that finds it full is dropped. */
    method PutKey(ghost k: Kernel, b: Byte)
      requires Represents(k)
      modifies keyQueue, keyQueue.arr
      ensures Represents(if |k.keys| < KEY_CAPACITY then k.(keys := k.keys + [b]) else k)
    {
      hide Linked, StateBytes, WakeTicks, Slots, Locks, ExitRing, KeyWaiterIs, DiskWaitersAre, FlagsAre, PageBits, Apart, Layout;
      assert ListsOf(k.(keys := k.keys + [b])) == ListsOf(k);
      var ok := keyQueue.Enqueue([b]);
    }

    method TakeKey(ghost k: Kernel) returns (ok: bool, data: seq<Byte>)
      requires Represents(k)
      modifies keyQueue
      ensures ok <==> k.keys != []
      ensures Represents(if ok then k.(keys := k.keys[1..]) else k) && (ok ==> data == [k.keys[0]])
    {
      hide Linked, StateBytes, WakeTicks, Slots, Locks, ExitRing, KeyWaiterIs, DiskWaitersAre, FlagsAre, PageBits, Apart, Layout;
      assert k.keys != [] ==> ListsOf(k.(keys := k.keys[1..])) == ListsOf(k);
      ok, data := keyQueue.Dequeue();
    }

    method SetKeyWaiter(ghost k: Kernel, pcb: PCB?, ghost p: Option<Pid>)
      requires Represents(k) && Layout() && pcb == BlockOf(p)
      modifies this`keyWaiter
      ensures Represents(k.(keyWaiter := p))
    {
      hide Linked, StateBytes, WakeTicks, Slots, Locks, ExitRing, KeyRing, DiskWaitersAre, FlagsAre, PageBits, Apart, Layout;
      assert ListsOf(k.(keyWaiter := p)) == ListsOf(k);
      keyWaiter := pcb;
    }

    /** What the waiter pointers and the flags say. */
    lemma WaitersSay(k: Kernel)
      requires Represents(k)
      ensures Layout() && keyWaiter == BlockOf(k.keyWaiter) && diskWaiter.Length == 2 && interruptOccur.Length == 2
      ensures forall ch: Channel :: diskWaiter[ch] == BlockOf(k.diskWaiter[ch]) && interruptOccur[ch] == k.flag[ch]
    {
    }

    /** inputQueue, called by the keyboard interrupt with an ASCII code. */
    method InputQueue(ghost k: Kernel, ascii: Byte)
      requires Represents(k) && Ok(k) && Enabled(k, KeyPress(ascii))
      modifies this`runningProcess, processList, sleepList, pcbs`next, pcbs`state, keyQueue, keyQueue.arr
      ensures Represents(Step(k, KeyPress(ascii)))
    {
      hide Represents, Ok, Apart, Layout, OnlySleeping, WakeupInInterrupt, Enabled;
      ghost var k1 := if |k.keys| < KEY_CAPACITY then k.(keys := k.keys + [ascii]) else k;
      WaiterFacts(k);
      SameOnlySleeping(k, k1);
      PutKey(k, ascii);
      WaitersSay(k1);
      WakeupProcessInInterrupt(k1, keyWaiter, k.keyWaiter);
    }

    /** getQueue. */
    method GetQueue(ghost k: Kernel) returns (success: bool, data: seq<Byte>)
      requires Represents(k) && Ok(k) && Enabled(k, PollKey)
      modifies keyQueue
      ensures Represents(Step(k, PollKey)) && (success <==> k.keys != []) && (success ==> data == [k.keys[0]])
    {
      hide Represents, Ok, Enabled, Step;
      CallFacts(k, PollKey);
      success, data := TakeKey(k);
    }

    /** One turn of getKey's loop: take a key, or register and block. */
    method TryGetKey(ghost k: Kernel) returns (got: bool, data: seq<Byte>)
      requires Represents(k)
      modifies this`keyWaiter, this`runningProcess, keyQueue, processList, pcbs`next, pcbs`state
      ensures Represents(GetKeyStep(k)) && (got <==> k.keys != []) && (got ==> data == [k.keys[0]])
    {
      hide Represents, Block, Layout, Apart;
      got, data := TakeKey(k);
      if !got {
        BlockSays(k, k.running);
        WaitersSay(k);
        SetKeyWaiter(k, runningProcess, Some(k.running));
        BlockRunningProcess(k.(keyWaiter := Some(k.running)), Keying);
      }
    }

    /** getKey, up to its return or its first block. */
    method GetKey(ghost k: Kernel) returns (got: bool, data: seq<Byte>)
      requires Represents(k) && Ok(k) && Enabled(k, Event.GetKey)
      modifies this`keyWaiter, this`runningProcess, keyQueue, processList, pcbs`next, pcbs`state
      ensures Represents(Step(k, Event.GetKey)) && (got <==> k.keys != []) && (got ==> data == [k.keys[0]])
    {
      hide Represents, Ok, Enabled, Step, GetKeyStep;
      CallFacts(k, Event.GetKey);
      got, data := TryGetKey(k);
    }

    // -------------------------------------------------------------- the disk

    method SetFlag(ghost k: Kernel, ch: Channel, b: bool)
      requires Represents(k)
      modifies interruptOccur
      ensures Represents(k.(flag := k.flag[ch := b]))
    {
      hide Linked, StateBytes, WakeTicks, Slots, Locks, ExitRing, KeyRing, KeyWaiterIs, DiskWaitersAre, PageBits, Apart, Layout;
      assert ListsOf(k.(flag := k.flag[ch := b])) == ListsOf(k);
      interruptOccur[ch] := b;
    }

    method SetDiskWaiter(ghost k: Kernel, ch: Channel, pcb: PCB?, ghost p: Option<Pid>)
      requires Represents(k) && Layout() && pcb == BlockOf(p)
      modifies diskWaiter
      ensures Represents(k.(diskWaiter := k.diskWaiter[ch := p]))
    {
      hide Linked, StateBytes, WakeTicks, Slots, Locks, ExitRing, KeyRing, KeyWaiterIs, FlagsAre, PageBits, Apart, Layout;
      assert ListsOf(k.(diskWaiter := k.diskWaiter[ch := p])) == ListsOf(k);
      diskWaiter[ch] := pcb;
    }

    /** primaryDiskInterruptHandler and secondaryDiskInterruptHandler. */
    method DiskInterruptHandler(ghost k: Kernel, ch: Channel)
      requires Represents(k) && Ok(k) && Enabled(k, DiskIrq(ch))
      modifies this`runningProcess, processList, sleepList, pcbs`next, pcbs`state, interruptOccur
      ensures Represents(Step(k, DiskIrq(ch)))
    {
      hide Represents, Ok, Apart, Layout, OnlySleeping, WakeupInInterrupt, Enabled;
      ghost var k1 := k.(flag := k.flag[ch := true]);
      WaiterFacts(k);
      SameOnlySleeping(k, k1);
      SetFlag(k, ch, true);
      WaitersSay(k1);
      WakeupProcessInInterrupt(k1, diskWaiter[ch], k.diskWaiter[ch]);
    }

    /** clearDiskInterruptFlag. */
    method ClearDiskInterruptFlag(ghost k: Kernel, ch: Channel)
      requires Represents(k) && Ok(k) && Enabled(k, ClearFlag(ch))
      modifies interruptOccur
      ensures Represents(Step(k, ClearFlag(ch)))
    {
      hide Represents, Ok, Enabled, Step;
      CallFacts(k, ClearFlag(ch));
      SetFlag(k, ch, false);
    }

    /** One turn of waitInterrupt's loop: return, or register and sleep until the deadline. */
    method TryWaitInterrupt(ghost k: Kernel, ch: Channel, deadline: nat) returns (done: bool, result: bool)
      requires Represents(k) && Nowhere(ListsOf(k), k.running) && k.alloc[k.running]
      modifies this`runningProcess, diskWaiter, processList, sleepList, pcbs`next, pcbs`state, pcbs`wakeupTick
      ensures Represents(AwaitDiskStep(k, ch, deadline))
      ensures done <==> k.flag[ch] || k.tick >= deadline
      ensures done ==> result == k.flag[ch]
    {
      hide Represents, Layout, Apart, Nowhere, SleepUntil;
      BlockSays(k, k.running);
      WaitersSay(k);
      if interruptOccur[ch] {
        return true, true;
      }
      if tickCount >= deadline {
        return true, false;
      }
      SetDiskWaiter(k, ch, runningProcess, Some(k.running));
      ghost var k1 := k.(diskWaiter := k.diskWaiter[ch := Some(k.running)]);
      SameLists(k, k1);
      SleepUntilTick(k1, deadline, DiskWaiting(ch, deadline));
      return false, false;
    }

    /** waitInterrupt with interrupts enabled, up to its return or its block. */
    method WaitInterrupt(ghost k: Kernel, ch: Channel) returns (done: bool, result: bool)
      requires Represents(k) && Ok(k) && Enabled(k, AwaitDisk(ch))
      modifies this`runningProcess, diskWaiter, processList, sleepList, pcbs`next, pcbs`state, pcbs`wakeupTick
      ensures Represents(Step(k, AwaitDisk(ch))) && (done <==> k.flag[ch]) && (done ==> result)
    {
      hide Represents, Ok, Enabled, Step, AwaitDiskStep, Nowhere, Layout;
      CallFacts(k, AwaitDisk(ch));
      BlockSays(k, k.running);
      done, result := TryWaitInterrupt(k, ch, tickCount + DISK_TIMEOUT_TICKS);
    }

    // -------------------------------------------------------------- yielding, creation, exit, collection

    /** schedule: give the CPU to the head of the ready list, if any. */
    method Schedule(ghost k: Kernel)
      requires Represents(k) && Ok(k) && Enabled(k, Yield)
      modifies this`runningProcess, processList, pcbs`next, pcbs`state
      ensures Represents(Step(k, Yield))
    {
      hide Represents, Ok, Apart, Layout, Nowhere, Enabled, Step;
      CallFacts(k, Yield);
      BlockSays(k, k.running);
      var nextProcess := PopReady(k);
      if nextProcess != null {
        ghost var w := YieldStep(k);
        var curProcess := runningProcess;
        ghost var k1 := k.(ready := k.ready[1..]);
        DropNowhere(k, k.running);
        SetState(k1, curProcess, k.running, Ready);
        ghost var k2 := k1.(st := k.st[k.running := Ready]);
        SameLists(k1, k2);
        PushReady(k2, curProcess, k.running);
        ghost var k3 := k2.(ready := w.ready);
        SetCont(k3, w.cont);
        SetState(k3.(cont := w.cont), nextProcess, w.running, Running);
        SetRunning(k3.(cont := w.cont, st := w.st), nextProcess, w.running);
        assert k3.(cont := w.cont, st := w.st, running := w.running) == w;
      }
    }

    /** Marks that exist only in the model. */
    lemma SetMarks(k: Kernel, cont: Conts, user: Marks, program: bool)
      requires Represents(k)
      ensures Represents(k.(cont := cont, user := user, program := program))
    {
      assert ListsOf(k.(cont := cont, user := user, program := program)) == ListsOf(k);
    }

    method SetNextPid(ghost k: Kernel, n: nat)
      requires Represents(k)
      modifies this`pidCountIdx
      ensures Represents(k.(nextPid := n)) && pidCountIdx == n
    {
      hide Linked, StateBytes, WakeTicks, Slots, Locks, ExitRing, KeyRing, KeyWaiterIs, DiskWaitersAre, FlagsAre, PageBits;
      assert ListsOf(k.(nextPid := n)) == ListsOf(k);
      pidCountIdx := n;
    }

    /** The slot table entry of a pid; a slot may be marked in use once its block carries the pid. */
    method SetSlot(ghost k: Kernel, p: Pid, b: bool)
      requires Represents(k) && Layout() && (b ==> pool[p].id == p)
      modifies allocProcessTable
      ensures Represents(k.(alloc := k.alloc[p := b]))
    {
      hide Linked, StateBytes, WakeTicks, Locks, ExitRing, KeyRing, KeyWaiterIs, DiskWaitersAre, FlagsAre, PageBits, Apart, Layout;
      assert ListsOf(k.(alloc := k.alloc[p := b])) == ListsOf(k);
      allocProcessTable[p] := if b then 1 else 0;
    }

    /** Giving a block that is on no list its pid. */
    method SetId(ghost k: Kernel, p: Pid)
      requires Represents(k) && Layout() && Nowhere(ListsOf(k), p)
      modifies pcbs`id
      ensures Represents(k) && pool[p].id == p
    {
      hide StateBytes, WakeTicks, Locks, ExitRing, KeyRing, KeyWaiterIs, DiskWaitersAre, FlagsAre, PageBits, Apart, Names, LinkedLists.LinkedList.Valid;
      pool[p].id := p;
    }

    lemma SlotSays(k: Kernel, i: nat)
      requires Represents(k) && i < PROCESS_MAXCOUNT
      ensures allocProcessTable.Length == PROCESS_MAXCOUNT && (allocProcessTable[i] == 1 <==> k.alloc[i])
    {
      var p: Pid := i;
      assert Slots(k.alloc) && allocProcessTable[p] == if k.alloc[p] then 1 else 0;
    }

    /** The probe loop of createProcess; `found` is false where the C code reports an error and hangs. */
    method ProbeSlot(ghost k: Kernel) returns (found: bool)
      requires Represents(k)
      modifies this`pidCountIdx
      ensures found <==> Probe(k.alloc, k.nextPid, 0).Some?
      ensures found ==> pidCountIdx == Probe(k.alloc, k.nextPid, 0).value && Represents(k.(nextPid := pidCountIdx))
    {
      hide Represents;
      BlockSays(k, k.running);
      SlotSays(k, k.nextPid % PROCESS_MAXCOUNT);
      var tryCount := 0;
      ghost var w := k;
      while allocProcessTable[pidCountIdx % PROCESS_MAXCOUNT] == 1
        invariant w == k.(nextPid := pidCountIdx) && Represents(w) && tryCount <= PROCESS_MAXCOUNT
        invariant Probe(k.alloc, pidCountIdx, tryCount) == Probe(k.alloc, k.nextPid, 0)
        invariant allocProcessTable.Length == PROCESS_MAXCOUNT
        invariant allocProcessTable[pidCountIdx % PROCESS_MAXCOUNT] == 1 <==> k.alloc[pidCountIdx % PROCESS_MAXCOUNT]
        decreases PROCESS_MAXCOUNT - tryCount
      {
        tryCount := tryCount + 1;
        if tryCount > PROCESS_MAXCOUNT {
          return false;
        }
        SetNextPid(w, (pidCountIdx + 1) % PROCESS_MAXCOUNT);
        w := k.(nextPid := pidCountIdx);
        SlotSays(w, pidCountIdx % PROCESS_MAXCOUNT);
      }
      return true;
    }

    /** The rest of createProcess, registers and stack addresses aside: slot `p` becomes a ready process. */
    method FillSlot(ghost k: Kernel, p: Pid) returns (pcb: PCB)
      requires Represents(k) && Layout() && Nowhere(ListsOf(k), p)
      modifies this`pidCountIdx, processList, pcbs`next, pcbs`state, pcbs`id, allocProcessTable
      ensures pcb == pool[p] && pcb.id == p
      ensures Represents(k.(st := k.st[p := Ready], ready := k.ready + [p], alloc := k.alloc[p := true], nextPid := p + 1))
    {
      hide Represents, Apart, Layout, Nowhere, ListsOf, Wired, Linked;
      BlockSays(k, p);
      pcb := pool[p];
      SetId(k, p);
      SetState(k, pcb, p, Ready);
      ghost var k2 := k.(st := k.st[p := Ready]);
      SameLists(k, k2);
      PushReady(k2, pcb, p);
      TakeSlot(k2.(ready := k.ready + [p]), p);
    }

    method TakeSlot(ghost k: Kernel, p: Pid)
      requires Represents(k) && Layout() && pool[p].id == p
      modifies this`pidCountIdx, allocProcessTable
      ensures Represents(k.(alloc := k.alloc[p := true], nextPid := p + 1))
    {
      hide Represents, Layout;
      SetSlot(k, p, true);
      SetNextPid(k.(alloc := k.alloc[p := true]), p + 1);
    }

    /** createProcess. */
    method CreateProcess(ghost k: Kernel) returns (pcb: PCB)
      requires Represents(k) && CanCreate(k) && CanTake(k)
      modifies this`pidCountIdx, processList, pcbs`next, pcbs`state, pcbs`id, allocProcessTable
      ensures Represents(CreateStep(k, KernelProcess)) && IsNew(k, pcb)
    {
      hide Represents, Apart, Layout, Nowhere, Probe, CodePages, StackPages;
      var found := ProbeSlot(k);
      var p := pidCountIdx;
      ghost var k1 := k.(nextPid := p);
      BlockSays(k1, p);
      SameLists(k, k1);
      pcb := FillSlot(k1, p);
      ghost var k2 := k1.(st := k.st[p := Ready], ready := k.ready + [p], alloc := k.alloc[p := true], nextPid := p + 1);
      SetMarks(k2, k.cont[p := Free], k.user[p := false], k.program);
      assert k.us + {} + {} == k.us;
      assert k2.(cont := k.cont[p := Free], user := k.user[p := false]) == CreateStep(k, KernelProcess);
    }

    /** setPageUserAccess on the tables of this machine, for pages of the first 64 MB. */
    method SetPageUserAccess(ghost k: Kernel, start: nat, end: nat, allow: bool)
      requires Represents(k) && start % 0x1000 == 0 && end % 0x1000 == 0 && end <= Page.PRESENT_PAGES * 0x1000
      modifies page
      ensures Represents(k.(us := if allow then k.us + PagesOf(start, end) else k.us - PagesOf(start, end)))
      ensures Page.WindowSet(old(page[..]), page[..], start / 0x1000, end / 0x1000, allow)
    {
      hide Linked, StateBytes, WakeTicks, Slots, Locks, ExitRing, KeyRing, KeyWaiterIs, DiskWaitersAre, FlagsAre, Apart, Layout;
      hide Page.LowTables, Page.WindowSet, PagesOf;
      ghost var us := if allow then k.us + PagesOf(start, end) else k.us - PagesOf(start, end);
      WindowPages(start, end);
      Page.SetPageUserAccess(page, start, end, allow);
      Page.WindowTables(old(page[..]), page[..], start / 0x1000, end / 0x1000, allow, k.us);
      assert ListsOf(k.(us := us)) == ListsOf(k);
    }

    /** What ring 3 can reach: while the kernel runs, the walk sends every address below 64 MB to itself, and lets user
      * mode through exactly in the pages the abstract state has open. */
    lemma RingThreeSees(k: Kernel, va: nat)
      requires Represents(k) && va < 0x400_0000
      ensures Page.Walk(page[..], va) == Some(Page.Mapping(va, true, va / 0x1000 in k.us, false))
    {
      hide Linked, StateBytes, WakeTicks, Slots, Locks, ExitRing, KeyRing, KeyWaiterIs, DiskWaitersAre, FlagsAre, Apart, Layout;
      hide Page.LowTables, Page.Walk;
      Page.LowMap(page[..], k.us, va);
    }

    /** `pcb` is the control block of the slot the probe finds. */
    ghost predicate IsNew(k: Kernel, pcb: PCB)
      reads pcb`id
    {
      && CanCreate(k) && |pool| == PROCESS_MAXCOUNT
      && pcb == pool[Probe(k.alloc, k.nextPid, 0).value] && pcb.id == Probe(k.alloc, k.nextPid, 0).value
    }

    lemma KernelCreated(k: Kernel, pcb: PCB)
      requires IsNew(k, pcb)
      ensures var w := CreateStep(k, KernelProcess); var p := Probe(k.alloc, k.nextPid, 0).value;
              w == k.(st := k.st[p := Ready], ready := k.ready + [p], alloc := k.alloc[p := true], cont := k.cont[p := Free],
                      user := k.user[p := false], nextPid := p + 1)
              && pcb.id == p
    {
      hide CodePages, StackPages;
      assert k.us + {} + {} == k.us;
    }

    lemma SameSlot(k: Kernel, w: Kernel, pcb: PCB)
      requires IsNew(k, pcb) && w.alloc == k.alloc && w.nextPid == k.nextPid
      ensures IsNew(w, pcb)
    {
    }

    /** createProcess as a call of the running process. */
    method CreateKernelProcess(ghost k: Kernel) returns (pcb: PCB)
      requires Represents(k) && Ok(k) && Enabled(k, Create(KernelProcess))
      modifies this`pidCountIdx, processList, pcbs`next, pcbs`state, pcbs`id, allocProcessTable
      ensures Represents(Step(k, Create(KernelProcess))) && IsNew(k, pcb)
    {
      hide Represents, Ok, Step, Enabled, CreateStep, IsNew;
      CreateFacts(k, KernelProcess);
      pcb := CreateProcess(k);
    }

    /** createUserProcess: a kernel process whose user stack window is then opened to ring 3.  `code` are the
      * pages runUserProgram has opened before. */
    method CreateUserProcess(ghost k: Kernel, ghost code: set<nat>) returns (pcb: PCB)
      requires Ok(k) && CanCreate(k) && Represents(k.(us := k.us + code))
      modifies this`pidCountIdx, processList, pcbs`next, pcbs`state, pcbs`id, allocProcessTable, page
      ensures Represents(UserCreated(k, code)) && IsNew(k, pcb)
    {
      hide Represents, Ok, CodePages, PagesOf, Layout, Probe, Nowhere, IsNew, CreateStep, ListsOf, CanTake;
      ghost var k1 := k.(us := k.us + code);
      FreeSlotNowhere(k);
      SlotFree(k, k1);
      pcb := CreateProcess(k1);
      SameSlot(k1, k, pcb);
      ghost var k2 := CreateStep(k1, KernelProcess);
      ghost var p := Probe(k.alloc, k.nextPid, 0).value;
      KernelCreated(k1, pcb);
      KernelCreated(k, pcb);
      StackWindow(p);
      var userStack := USER_STACK_BASE + USER_STACK_INTERVAL * pcb.id;
      SetPageUserAccess(k2, userStack, userStack + USER_STACK_SIZE, true);
      SetMarks(k2.(us := k2.us + StackPages(p)), k2.cont, k.user[p := true], k.program);
    }

    /** The createUserProcess call. */
    method CreateUser(ghost k: Kernel) returns (pcb: PCB)
      requires Represents(k) && Ok(k) && Enabled(k, Create(UserProcess))
      modifies this`pidCountIdx, processList, pcbs`next, pcbs`state, pcbs`id, allocProcessTable, page
      ensures Represents(Step(k, Create(UserProcess))) && IsNew(k, pcb)
    {
      hide Represents, Ok, CodePages, StackPages, Probe, Step, Enabled, IsNew;
      CreateFacts(k, UserProcess);
      assert k.us + {} == k.us && k.(us := k.us) == k;
      pcb := CreateUserProcess(k, {});
    }

    /** runUserProgram, the copy of the image aside: NULL for an image that does not fit, else the code area is opened
      * before the process is created. */
    method RunUserProgram(ghost k: Kernel, size: nat) returns (pcb: PCB?)
      requires Represents(k) && Ok(k) && Enabled(k, Create(UserProgram))
      modifies this`pidCountIdx, processList, pcbs`next, pcbs`state, pcbs`id, allocProcessTable, page
      ensures pcb == null <==> size > USER_CODE_SIZE
      ensures Represents(if size > USER_CODE_SIZE then k else Step(k, Create(UserProgram)))
      ensures pcb != null ==> IsNew(k, pcb)
    {
      hide Represents, Ok, StackPages, Probe, PagesOf, Step, Enabled, IsNew;
      if size > USER_CODE_SIZE {
        return null;
      }
      CreateFacts(k, UserProgram);
      SetPageUserAccess(k, USER_CODE_ADDRESS, USER_CODE_ADDRESS + USER_CODE_SIZE, true);
      pcb := CreateUserProcess(k, CodePages());
      ghost var w := UserCreated(k, CodePages());
      SetMarks(w, w.cont, w.user, true);
    }

    /** enQueue of a pid on the exit queue; exitProcess ignores a full queue. */
    method PutExit(ghost k: Kernel, id: Pid)
      requires Represents(k)
      modifies exitProcessQueue, exitProcessQueue.arr
      ensures Represents(if |k.exits| < EXIT_CAPACITY then k.(exits := k.exits + [id]) else k)
    {
      hide Linked, StateBytes, WakeTicks, Slots, Locks, KeyRing, KeyWaiterIs, DiskWaitersAre, FlagsAre, PageBits, Apart, Layout,
        ListsOf, Bytes, Split, Queues.Queue.Valid;
      SameLists(k, k.(exits := k.exits + [id]));
      var ok := exitProcessQueue.Enqueue(Bytes(id));
    }

    method TakeExit(ghost k: Kernel) returns (ok: bool, id: int)
      requires Represents(k)
      modifies exitProcessQueue
      ensures ok <==> k.exits != []
      ensures Represents(if ok then k.(exits := k.exits[1..]) else k) && (ok ==> id == k.exits[0])
    {
      hide Linked, StateBytes, WakeTicks, Slots, Locks, KeyRing, KeyWaiterIs, DiskWaitersAre, FlagsAre, PageBits, Apart, Layout;
      assert k.exits != [] ==> ListsOf(k.(exits := k.exits[1..])) == ListsOf(k);
      var data;
      ok, data := exitProcessQueue.Dequeue();
      if ok {
        IntBytes(k.exits[0]);
      }
      id := if ok then Int32(Dword(data)) else 0;
    }

    /** exitProcess. */
    method ExitProcess(ghost k: Kernel)
      requires Represents(k) && Ok(k) && Enabled(k, Exit)
      modifies this`runningProcess, processList, sleepList, pcbs`next, pcbs`state, exitProcessQueue, exitProcessQueue.arr
      ensures Represents(Step(k, Exit))
    {
      hide Represents, Ok, Apart, Layout, Nowhere, OnlySleeping, Wakeup, Dispatch, Enabled, Step, Calls, ListsOf, Wired, ExitStep, Linked;
      CallFacts(k, Exit);
      ExitSays(k);
      WaiterFacts(k);
      BlockSays(k, k.running);
      var cur := runningProcess;
      PutExit(k, cur.id);
      ghost var k1 := if |k.exits| < EXIT_CAPACITY then k.(exits := k.exits + [k.running]) else k;
      SameOnlySleeping(k, k1);
      BlockSays(k1, k.running);
      var woken := WakeupProcess(k1, collectorProcess, Some(k.collector));
      Retire(Wakeup(k1, k.collector), cur, k.running);
    }

    /** The last lines of exitProcess. */
    method Retire(ghost k: Kernel, cur: PCB, ghost p: Pid)
      requires Represents(k) && cur == pool[p]
      modifies this`runningProcess, processList, pcbs`next, pcbs`state
      ensures Represents(Dispatch(k.(st := k.st[p := Exited]).(cont := k.cont[p := Free])))
    {
      hide Represents, Dispatch;
      SetState(k, cur, p, Exited);
      ghost var k3 := k.(st := k.st[p := Exited]);
      SetCont(k3, k.cont[p := Free]);
      ScheduleBlocked(k3.(cont := k.cont[p := Free]));
    }

    /** One pass of the collector's loop: free one slot and close its stack window, or block. */
    method TryCollect(ghost k: Kernel)
      requires Represents(k)
      modifies this`runningProcess, processList, pcbs`next, pcbs`state, exitProcessQueue, allocProcessTable, page
      ensures Represents(CollectStep(k))
    {
      hide Represents, Apart, Layout, Block, PagesOf, ListsOf, Wired;
      BlockSays(k, k.running);
      var ok, pid := TakeExit(k);
      if !ok {
        BlockRunningProcess(k, Collecting);
      } else {
        ghost var k1 := k.(exits := k.exits[1..]);
        SetSlot(k1, pid, false);
        ghost var k2 := k1.(alloc := k.alloc[k.exits[0] := false]);
        StackWindow(pid);
        var userStack := USER_STACK_BASE + USER_STACK_INTERVAL * pid;
        SetPageUserAccess(k2, userStack, userStack + USER_STACK_SIZE, false);
      }
    }

    // -------------------------------------------------------------- after a context switch

    /** Coming back inside getKey. */
    method ResumeGetKey(ghost k: Kernel) returns (got: bool, data: seq<Byte>)
      requires Represents(k) && k.cont[k.running] == Keying
      modifies this`keyWaiter, this`runningProcess, keyQueue, processList, pcbs`next, pcbs`state
      ensures Represents(ResumeStep(k)) && (got <==> k.keys != []) && (got ==> data == [k.keys[0]])
    {
      hide Represents, Layout, GetKeyStep;
      WaitersSay(k);
      SetKeyWaiter(k, null, None);
      ghost var k1 := k.(keyWaiter := None);
      SetCont(k1, k.cont[k.running := Free]);
      got, data := TryGetKey(Leave(k));
    }

    /** Coming back inside waitInterrupt: it returns at once. */
    method ResumeWaitInterrupt(ghost k: Kernel, ch: Channel, deadline: nat) returns (done: bool, result: bool)
      requires Represents(k) && Ok(k) && k.cont[k.running] == DiskWaiting(ch, deadline)
      modifies this`runningProcess, diskWaiter, processList, sleepList, pcbs`next, pcbs`state, pcbs`wakeupTick
      ensures Represents(ResumeStep(k)) && done && result == k.flag[ch]
    {
      hide Represents, Layout, AwaitDiskStep, Ok, Nowhere, Apart;
      DiskResumeFacts(k);
      WaitersSay(k);
      SetDiskWaiter(k, ch, null, None);
      ghost var k1 := k.(diskWaiter := k.diskWaiter[ch := None]);
      SetCont(k1, k.cont[k.running := Free]);
      SameLists(k, Leave(k));
      done, result := TryWaitInterrupt(Leave(k), ch, deadline);
    }

    /** Coming back inside the collector. */
    method ResumeCollector(ghost k: Kernel)
      requires Represents(k) && k.cont[k.running] == Collecting
      modifies this`runningProcess, processList, pcbs`next, pcbs`state, exitProcessQueue, allocProcessTable, page
      ensures Represents(ResumeStep(k))
    {
      hide Represents, CollectStep;
      SetCont(k, k.cont[k.running := Free]);
      assert Leave(k) == k.(cont := k.cont[k.running := Free]);
      TryCollect(Leave(k));
    }

    /** Coming back from schedule, sleepProcess or acquireLock: only the interrupt flag is left to restore. */
    lemma ResumeReturn(k: Kernel)
      requires Represents(k) && (k.cont[k.running].Yielding? || k.cont[k.running].Sleeping? || k.cont[k.running].Locking?)
      ensures Represents(ResumeStep(k))
    {
      hide Represents;
      SetCont(k, k.cont[k.running := Free]);
    }
  }

  /** Stack windows are whole pages of the first 64 MB. */
  lemma StackWindow(p: Pid)
    ensures var start := USER_STACK_BASE + USER_STACK_INTERVAL * p;
            start % 0x1000 == 0 && (start + USER_STACK_SIZE) % 0x1000 == 0 && start + USER_STACK_SIZE <= Page.PRESENT_PAGES * 0x1000
  {
    assert USER_STACK_BASE + USER_STACK_INTERVAL * p == 0x1000 * (0x3100 + 3 * p);
  }

  /** The pages of an aligned range, counted. */
  lemma WindowPages(start: nat, end: nat)
    requires start % 0x1000 == 0 && end % 0x1000 == 0
    ensures PagesOf(start, end) == Page.Pages(start / 0x1000, end / 0x1000)
    ensures forall pg :: pg in PagesOf(start, end) ==> pg * 0x1000 < end
  {
    forall pg: nat ensures pg in PagesOf(start, end) <==> pg in Page.Pages(start / 0x1000, end / 0x1000) {
    }
  }

  /** The model state after createUserProcess, called with the pages `code` already open. */
  function UserCreated(k: Kernel, code: set<nat>): Kernel
    requires CanCreate(k)
  {
    var p := Probe(k.alloc, k.nextPid, 0).value;
    CreateStep(k, KernelProcess).(us := k.us + code + StackPages(p), user := k.user[p := true])
  }

  lemma DiskResumeFacts(k: Kernel)
    requires Ok(k) && k.cont[k.running].DiskWaiting?
    ensures Nowhere(ListsOf(k), k.running) && k.alloc[k.running] && k.running != k.idle
    ensures k.flag[k.cont[k.running].ch] || k.tick >= k.cont[k.running].deadline
  {
    OkRunningNowhere(k);
  }

  lemma CreateFacts(k: Kernel, kind: Kind)
    requires Ok(k) && Enabled(k, Create(kind))
    ensures CanCreate(k) && CanTake(k) && Step(k, Create(kind)) == CreateStep(k, kind)
  {
    hide Ok, CreateStep, Probe;
    FreeSlotNowhere(k);
  }

  /** The slot the probe finds is free and its block is on no list. */
  ghost predicate CanTake(k: Kernel)
    requires CanCreate(k)
  {
    Nowhere(ListsOf(k), Probe(k.alloc, k.nextPid, 0).value)
  }

  lemma SlotFree(k: Kernel, w: Kernel)
    requires CanCreate(k) && CanTake(k)
    requires w.alloc == k.alloc && w.nextPid == k.nextPid && w.ready == k.ready && w.sleeping == k.sleeping && w.mutexes == k.mutexes
    ensures CanCreate(w) && CanTake(w)
  {
    SameLists(k, w);
  }

  lemma FreeSlotNowhere(k: Kernel)
    requires Ok(k) && CanCreate(k)
    ensures CanTake(k) && !k.alloc[Probe(k.alloc, k.nextPid, 0).value]
  {
    ProbeResult(k.alloc, k.nextPid, 0);
    var p := Probe(k.alloc, k.nextPid, 0).value;
    var q := ListsOf(k);
    forall a | 0 <= a < |q| ensures p !in q[a] {
      if a >= 2 { assert q[2 + (a - 2)] == k.mutexes[a - 2].waiters && !Waits(k.mutexes, a - 2, p); }
    }
  }

  /** The waiter slots point at processes that are parked, not queued. */
  lemma WaiterFacts(k: Kernel)
    requires Ok(k)
    ensures k.keyWaiter.Some? ==> OnlySleeping(k, k.keyWaiter.value)
    ensures forall ch: Channel :: k.diskWaiter[ch].Some? ==> OnlySleeping(k, k.diskWaiter[ch].value)
    ensures OnlySleeping(k, k.collector)
  {
    assert Lists(k) && Continuations(k) && Special(k);
    hide Ok, Lists, OnlySleeping;
    forall p: Pid | k.cont[p] != Free && !k.cont[p].Locking? ensures OnlySleeping(k, p) {
      ParkedOnlySleeping(k, p);
    }
    if k.cont[k.collector] == Free {
      assert k.st[k.collector] != Blocked;
      NotBlocked(k, k.collector);
    }
  }

  lemma NotBlocked(k: Kernel, p: Pid)
    requires k.st[p] != Blocked
    ensures OnlySleeping(k, p)
  {
  }

  /** Whether a process is merely parked depends on the lists, its state byte and its slot alone. */
  lemma SameOnlySleeping(k: Kernel, w: Kernel)
    requires w.ready == k.ready && w.sleeping == k.sleeping && w.mutexes == k.mutexes && w.st == k.st && w.alloc == k.alloc
    ensures forall p: Pid :: OnlySleeping(k, p) <==> OnlySleeping(w, p)
  {
    SameLists(k, w);
  }

  /** The first waiter, once off the wait list, is on no list. */
  lemma HandoffFacts(k: Kernel, m: nat, y: Mutex)
    requires Ok(k) && m < |k.mutexes| && k.mutexes[m].waiters != [] && y.waiters == k.mutexes[m].waiters[1..]
    ensures var p := k.mutexes[m].waiters[0]; k.alloc[p] && OnlySleeping(k.(mutexes := k.mutexes[m := y]), p)
  {
    var p, q := k.mutexes[m].waiters[0], ListsOf(k);
    assert Waits(k.mutexes, m, p);
    ListsApart(k);
    WaitersUpdate(k, k.(mutexes := k.mutexes[m := y]), m);
    assert q[2 + m] == k.mutexes[m].waiters && NoDup(q[2 + m]);
  }

  /** The parts of exitProcess. */
  lemma ExitSays(k: Kernel)
    ensures var k2 := Wakeup(if |k.exits| < EXIT_CAPACITY then k.(exits := k.exits + [k.running]) else k, k.collector);
            ExitStep(k) == Dispatch(k2.(st := k2.st[k.running := Exited]).(cont := k2.cont[k.running := Free]))
  {
    hide Wakeup, Dispatch;
  }

  /** The three branches of acquireLock. */
  lemma AcquireSays(k: Kernel, m: nat)
    requires m < |k.mutexes|
    ensures var x := k.mutexes[m];
            && (x.owner == Some(k.running) ==>
                  AcquireStep(k, m) == k.(mutexes := k.mutexes[m := x.(owner := x.owner, count := (x.count + 1) % WORD_LIMIT)]))
            && (x.owner.None? ==> AcquireStep(k, m) == k.(mutexes := k.mutexes[m := x.(owner := Some(k.running), count := 1)]))
            && (x.owner.Some? && x.owner != Some(k.running) ==>
                  AcquireStep(k, m) == Block(k.(mutexes := k.mutexes[m := x.(waiters := x.waiters + [k.running])]), Locking(m)))
  {
    hide Block;
  }

  /** The branches of releaseLock. */
  lemma ReleaseSays(k: Kernel, m: nat)
    requires m < |k.mutexes|
    ensures var x := k.mutexes[m]; var left := (x.count - 1) % WORD_LIMIT;
            && (x.owner != Some(k.running) ==> ReleaseStep(k, m) == k)
            && (x.owner == Some(k.running) && left != 0 ==>
                  ReleaseStep(k, m) == k.(mutexes := k.mutexes[m := x.(owner := x.owner, count := left)]))
            && (x.owner == Some(k.running) && left == 0 ==>
                  ReleaseStep(k, m) ==
                    if x.waiters == [] then k.(mutexes := k.mutexes[m := Mutex(None, 0, [])])
                    else Wakeup(k.(mutexes := k.mutexes[m := Mutex(Some(x.waiters[0]), 1, x.waiters[1..])]), x.waiters[0]))
  {
    hide Wakeup;
  }

  lemma CoreRunningNowhere(k: Kernel)
    requires Core(k) && OnCpu(k)
    ensures k.running != k.idle ==> Nowhere(ListsOf(k), k.running) && k.alloc[k.running]
  {
    if k.running != k.idle {
      RunningNowhere(k);
    }
  }

  /** What a call of the running process may rely on, and which step it is. */
  lemma CallFacts(k: Kernel, e: Event)
    requires Ok(k) && Enabled(k, e) && (e.Sleep? || e.Acquire? || e.Release? || e.Yield? || e.GetKey? || e.PollKey? || e.AwaitDisk? || e.ClearFlag? || e.Exit?)
    ensures Calls(k) && Nowhere(ListsOf(k), k.running) && k.alloc[k.running]
    ensures e.Sleep? ==> Step(k, e) == SleepUntil(k, WakeTick(k.tick, e.ms), Sleeping)
    ensures e.Acquire? ==> e.mutex < |k.mutexes| && Step(k, e) == AcquireStep(k, e.mutex)
    ensures e.Release? ==> e.mutex < |k.mutexes| && Step(k, e) == ReleaseStep(k, e.mutex)
    ensures e.Yield? ==> Step(k, e) == YieldStep(k)
    ensures e.GetKey? ==> Step(k, e) == GetKeyStep(k)
    ensures e.PollKey? ==> Step(k, e) == if k.keys == [] then k else k.(keys := k.keys[1..])
    ensures e.AwaitDisk? ==> Step(k, e) == AwaitDiskStep(k, e.ch, k.tick + DISK_TIMEOUT_TICKS)
    ensures e.ClearFlag? ==> Step(k, e) == k.(flag := k.flag[e.ch := false])
    ensures e.Exit? ==> Step(k, e) == ExitStep(k)
  {
    hide Ok, Core, OnCpu, Nowhere, SleepUntil, AcquireStep, ReleaseStep, YieldStep, GetKeyStep, AwaitDiskStep, ExitStep,
      TickStep, KeyPressStep, DiskIrqStep, CreateStep, CollectStep, ResumeStep, CanCreate, OwnsDisk;
    assert Calls(k);
    OkRunningNowhere(k);
  }

  lemma OkRunningNowhere(k: Kernel)
    requires Ok(k) && k.running != k.idle
    ensures Nowhere(ListsOf(k), k.running) && k.alloc[k.running]
  {
    RunningNowhere(k);
  }

  lemma WaitersUpdate(k: Kernel, w: Kernel, m: nat)
    requires m < |k.mutexes| && |w.mutexes| == |k.mutexes| && w.ready == k.ready && w.sleeping == k.sleeping
    requires forall j :: 0 <= j < |k.mutexes| && j != m ==> w.mutexes[j] == k.mutexes[j]
    ensures ListsOf(w) == ListsOf(k)[2 + m := w.mutexes[m].waiters]
  {
  }

  /** The state before initScheduler has created anything: the boot process runs in slot 0. */
  function Raw(mutexCount: nat): Kernel {
    Boot(mutexCount).(idle := 0, collector := 0, ready := [], nextPid := 1,
      st := seq(PROCESS_MAXCOUNT, i => if i == 0 then Running else Exited), alloc := seq(PROCESS_MAXCOUNT, i => i < 1))
  }

  lemma InitFacts(mutexCount: nat)
    ensures var k := Raw(mutexCount); CanCreate(k) && CanTake(k) && Probe(k.alloc, k.nextPid, 0) == Some(1)
    ensures var k := Raw(mutexCount); var k2 := CreateStep(k, KernelProcess).(collector := 1);
            && CanCreate(k2) && CanTake(k2) && Probe(k2.alloc, k2.nextPid, 0) == Some(2)
            && var k4 := CreateStep(k2, KernelProcess).(idle := 2);
            k4.(ready := Common.Remove(k4.ready, 2)) == Boot(mutexCount)
  {
    hide Raw, ListsOf, Boot, Probe;
    InitProbes(mutexCount);
    RawLists(mutexCount);
    CreateLists2(Raw(mutexCount), CreateStep(Raw(mutexCount), KernelProcess).(collector := 1), 1);
    InitBoots(mutexCount);
  }

  lemma InitProbes(mutexCount: nat)
    ensures var k := Raw(mutexCount); CanCreate(k) && Probe(k.alloc, k.nextPid, 0) == Some(1) && k.ready == []
    ensures var k2 := CreateStep(Raw(mutexCount), KernelProcess).(collector := 1);
            CanCreate(k2) && Probe(k2.alloc, k2.nextPid, 0) == Some(2)
  {
    hide CodePages, StackPages;
  }

  lemma InitBoots(mutexCount: nat)
    requires var k := Raw(mutexCount); CanCreate(k) && Probe(k.alloc, k.nextPid, 0) == Some(1)
    requires var k2 := CreateStep(Raw(mutexCount), KernelProcess).(collector := 1);
             CanCreate(k2) && Probe(k2.alloc, k2.nextPid, 0) == Some(2)
    ensures var k2 := CreateStep(Raw(mutexCount), KernelProcess).(collector := 1);
            var k4 := CreateStep(k2, KernelProcess).(idle := 2);
            k4.(ready := Common.Remove(k4.ready, 2)) == Boot(mutexCount)
  {
    hide CodePages, StackPages, Probe;
    var k2 := CreateStep(Raw(mutexCount), KernelProcess).(collector := 1);
    var k4 := CreateStep(k2, KernelProcess).(idle := 2);
    var b := Boot(mutexCount);
    assert k4.ready == [1, 2] && Common.Remove([1, 2], 2) == [1];
    assert k4.st == b.st && k4.cont == b.cont && k4.alloc == b.alloc && k4.user == b.user && k4.us == b.us;
  }

  lemma CreateLists2(k: Kernel, w: Kernel, p: Pid)
    requires forall a :: 0 <= a < |ListsOf(k)| ==> ListsOf(k)[a] == []
    requires w.ready == [p] && w.sleeping == k.sleeping && w.mutexes == k.mutexes
    ensures forall x: Pid :: x != p ==> Nowhere(ListsOf(w), x)
  {
    assert ListsOf(w) == ListsOf(k)[0 := [p]];
  }

  lemma RawLists(mutexCount: nat)
    ensures var q := ListsOf(Raw(mutexCount)); |q| == 2 + mutexCount && forall a :: 0 <= a < |q| ==> q[a] == []
  {
    var k := Raw(mutexCount);
    var q := ListsOf(k);
    forall a | 0 <= a < |q| ensures q[a] == [] {
      if a >= 2 { assert q[2 + (a - 2)] == k.mutexes[a - 2].waiters; }
    }
  }

  function First(s: seq<Pid>): Option<Pid> { if s == [] then None else Some(s[0]) }
}
