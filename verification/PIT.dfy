/** kernel/drivers/PIT.c: clock counts, the counter-0 stopwatch, and the polling loop of kernel/drivers/Disk.c that
  * relies on it. Time is the number of PIT clocks; the device counts down in mode 2. */
module PIT {
  import opened Common
  import opened Words

  const FREQUENCY: nat := 1193182
  const MAX_RELOAD: nat := 0x10000

  type Word = w: int | 0 <= w < 0x10000

  // ---------------------------------------------------------------- durations

  function MsToClock(ms: nat): int { Int32(FREQUENCY * ms % QWORD / 1000) }

  function UsToClock(us: nat): int { Int32(FREQUENCY * us % QWORD / 1000000) }

  /** The count is the true number of whole clocks, exactly while that number fits an int. */
  lemma MsExact(ms: nat)
    ensures MsToClock(ms) == FREQUENCY * ms / 1000 <==> FREQUENCY * ms / 1000 < 0x8000_0000
  {
    if FREQUENCY * ms / 1000 < 0x8000_0000 {
      assert FREQUENCY * ms % QWORD == FREQUENCY * ms;
    }
  }

  lemma UsExact(us: nat)
    ensures UsToClock(us) == FREQUENCY * us / 1000000 <==> FREQUENCY * us / 1000000 < 0x8000_0000
  {
    if FREQUENCY * us / 1000000 < 0x8000_0000 {
      assert FREQUENCY * us % QWORD == FREQUENCY * us;
    }
  }

  // ---------------------------------------------------------------- the counter

  /** What a read of counter 0 returns `t` clocks after it was loaded with `reload`: it counts reload, reload - 1,
    * ..., 1 and starts over, and 0x10000 reads as 0. */
  function Counter(t: nat, reload: nat): Word
    requires 0 < reload <= MAX_RELOAD
  {
    (reload - t % reload) % MAX_RELOAD
  }

  /** The clocks between two reads, as getElapsedClock computes them. */
  function Delta(last: Word, now: Word, reload: nat): int {
    if last - now < 0 then last - now + reload else last - now
  }

  lemma ModDifference(a: nat, b: nat, m: nat)
    requires 0 < m && a <= b
    ensures (b - a) % m == if b % m < a % m then b % m - a % m + m else b % m - a % m
  {
    var p, q := a / m, b / m;
    var r := b % m - a % m;
    assert b - a == m * (q - p) + r by {
      assert a == m * p + a % m && b == m * q + b % m;
      assert m * (q - p) == m * q - m * p;
    }
    if r < 0 {
      assert m * (q - p) == m * (q - p - 1) + m;
      DivMod(b - a, m, q - p - 1, r + m);
    } else {
      DivMod(b - a, m, q - p, r);
    }
  }

  /** Two reads give the clocks between them modulo the reload value, 0x10000 included. */
  lemma DeltaIsGap(a: nat, b: nat, reload: nat)
    requires 0 < reload <= MAX_RELOAD && a <= b
    ensures Delta(Counter(a, reload), Counter(b, reload), reload) == (b - a) % reload
  {
    ModDifference(a, b, reload);
    CounterValue(a, reload);
    CounterValue(b, reload);
  }

  lemma CounterValue(t: nat, reload: nat)
    requires 0 < reload <= MAX_RELOAD
    ensures Counter(t, reload) == if reload == MAX_RELOAD && t % reload == 0 then 0 else reload - t % reload
  {
  }

  // ---------------------------------------------------------------- series of polls

  ghost predicate Ordered(polls: seq<nat>) { forall i, j :: 0 <= i < j < |polls| ==> polls[i] <= polls[j] }

  /** Every poll less than `reload` clocks after the one before. */
  ghost predicate Timely(polls: seq<nat>, reload: nat) {
    forall i, j :: 0 <= i < |polls| - 1 && j == i + 1 ==> polls[j] - polls[i] < reload
  }

  /** What the stopwatch adds up. */
  function Measured(polls: seq<nat>, reload: nat): int
    requires 0 < reload
  {
    if |polls| < 2 then 0
    else Measured(polls[..|polls| - 1], reload) + (polls[|polls| - 1] - polls[|polls| - 2]) % reload
  }

  /** Never more than the true time, and exactly the true time if and only if every poll was timely. */
  lemma {:induction false} MeasuredExact(polls: seq<nat>, reload: nat)
    requires 0 < reload && Ordered(polls) && |polls| > 0
    ensures 0 <= Measured(polls, reload) <= polls[|polls| - 1] - polls[0]
    ensures Measured(polls, reload) == polls[|polls| - 1] - polls[0] <==> Timely(polls, reload)
  {
    if |polls| > 1 {
      var k := |polls| - 1;
      var rest, gap := polls[..k], polls[k] - polls[k - 1];
      MeasuredExact(rest, reload);
      ModBound(gap, reload);
      TimelySplit(polls, reload, k);
      assert rest[|rest| - 1] == polls[k - 1] && rest[0] == polls[0];
    }
  }

  lemma ModBound(n: nat, m: nat)
    requires 0 < m
    ensures 0 <= n % m <= n && (n % m == n <==> n < m)
  {
    if n < m {
      DivMod(n, m, 0, n);
    } else {
      assert n % m < m;
    }
  }

  lemma TimelySplit(polls: seq<nat>, reload: nat, k: nat)
    requires k > 0 && |polls| == k + 1
    ensures Timely(polls, reload) <==> Timely(polls[..k], reload) && polls[k] - polls[k - 1] < reload
  {
    var rest := polls[..k];
    if Timely(rest, reload) && polls[k] - polls[k - 1] < reload {
      forall i, j | 0 <= i < |polls| - 1 && j == i + 1 ensures polls[j] - polls[i] < reload {
        if j < k {
          assert rest[j] - rest[i] < reload;
        }
      }
    }
  }

  // ---------------------------------------------------------------- the device and the stopwatch

  /** Counter 0 and the driver's copy of its reload value. */
  class Timer {
    var counter0Reload: nat
    // the device: what it counts down from, and since when
    var reload: nat
    var loaded: nat

    ghost predicate Valid()
      reads this
    {
      0 < reload <= MAX_RELOAD && counter0Reload == reload
    }

    /** The BIOS leaves reload value 0x10000. */
    constructor (since: nat)
      ensures Valid() && reload == MAX_RELOAD && loaded == since
    {
      counter0Reload, reload, loaded := MAX_RELOAD, MAX_RELOAD, since;
    }

    /** Two bytes, low one first, make up the reload value. */
    method SetReload(low: Byte, high: Byte, now: nat)
      modifies `reload, `loaded
      ensures reload == (if low + 256 * high == 0 then MAX_RELOAD else low + 256 * high) && loaded == now
    {
      reload, loaded := if low + 256 * high == 0 then MAX_RELOAD else low + 256 * high, now;
    }

    /** The driver remembers what the device was given, whatever the int. */
    method InitializePIT(clock: int, now: nat)
      modifies this
      ensures Valid() && loaded == now
      ensures reload == if clock % 0x10000 == 0 then 0x10000 else clock % 0x10000
    {
      SetReload(clock % 256, clock / 256 % 256, now);
      counter0Reload := if clock % 0x10000 != 0 then clock % 0x10000 else 0x10000;
    }

    /** The latched count, read as two bytes at time `now`. */
    method ReadCounter0(now: nat) returns (count: Word)
      requires Valid() && loaded <= now
      ensures count == Counter(now - loaded, reload)
    {
      var latch := Counter(now - loaded, reload);
      var lowerByte: Byte, upperByte: Byte := latch % 256, latch / 256;
      count := lowerByte + 256 * upperByte;
    }
  }

  lemma IntAdd(x: int, d: int)
    ensures Int32(Int32(x) + d) == Int32(x + d)
  {
  }

  class Stopwatch {
    var lastCounter: Word
    var elapsedClock: int
    /** When counter 0 was read. */
    ghost var polls: seq<nat>

    ghost predicate Valid(timer: Timer)
      reads this, timer
    {
      && timer.Valid() && polls != [] && Ordered(polls) && timer.loaded <= polls[0]
      && lastCounter == Counter(polls[|polls| - 1] - timer.loaded, timer.reload)
      && elapsedClock == Int32(Measured(polls, timer.reload))
    }

    /** What a valid stopwatch shows. */
    lemma Shown(timer: Timer)
      requires Valid(timer)
      ensures timer.Valid() && polls != [] && Ordered(polls)
      ensures Measured(polls, timer.reload) < 0x8000_0000 && Measured(polls, timer.reload) >= 0 ==>
        elapsedClock == Measured(polls, timer.reload)
    {
      hide Ordered, Measured, Counter;
    }

    method StartStopwatch(timer: Timer, now: nat)
      requires timer.Valid() && timer.loaded <= now
      modifies this
      ensures Valid(timer) && polls == [now] && elapsedClock == 0
    {
      lastCounter := timer.ReadCounter0(now);
      elapsedClock := 0;
      polls := [now];
    }

    /** The clocks since the start, less a whole period for every one missed between two polls. */
    method GetElapsedClock(timer: Timer, now: nat) returns (r: int)
      requires Valid(timer) && polls[|polls| - 1] <= now
      modifies this
      ensures Valid(timer) && polls == old(polls) + [now] && r == elapsedClock
      ensures now - polls[0] < 0x8000_0000 ==> r <= now - polls[0] && (r == now - polls[0] <==> Timely(polls, timer.reload))
    {
      hide Counter, Int32, Measured;
      var count := timer.ReadCounter0(now);
      ghost var last := polls[|polls| - 1];
      var delta := lastCounter - count;
      if delta < 0 {
        delta := delta + timer.counter0Reload;
      }
      DeltaIsGap(last - timer.loaded, now - timer.loaded, timer.reload);
      IntAdd(Measured(polls, timer.reload), delta);
      MeasuredNext(polls, now, timer.reload);
      lastCounter := count;
      elapsedClock := Int32(elapsedClock + delta);
      polls := polls + [now];
      MeasuredExact(polls, timer.reload);
      IntOf(Measured(polls, timer.reload));
      return elapsedClock;
    }
  }

  lemma IntOf(n: int)
    ensures 0 <= n < 0x8000_0000 ==> Int32(n) == n
  {
  }

  lemma MeasuredNext(polls: seq<nat>, now: nat, reload: nat)
    requires 0 < reload && polls != []
    ensures Measured(polls + [now], reload) == Measured(polls, reload) + (now - polls[|polls| - 1]) % reload
  {
    assert (polls + [now])[..|polls|] == polls;
  }

  // ---------------------------------------------------------------- waitStatus

  /** `at(k)` are the times of successive reads: time passes, and not by whole periods only. */
  ghost predicate Advancing(at: nat -> nat, reload: nat)
    requires 0 < reload
  {
    forall j, k :: 0 <= j && k == j + 1 ==> at(j) <= at(k) && (at(k) - at(j)) % reload != 0
  }

  /** The first `n` reads after the first are timely. */
  ghost predicate TimelyReads(at: nat -> nat, reload: nat, n: nat) {
    forall j, k :: 0 <= j < n && k == j + 1 ==> at(k) - at(j) < reload
  }

  predicate Shows(status: bv8, mask: bv8, value: bv8) { status & mask == value }

  /** The reads made so far are the first `n + 1` of `at`. */
  ghost predicate ReadsOf(polls: seq<nat>, at: nat -> nat, n: nat) { |polls| == n + 1 && forall k :: 0 <= k <= n ==> polls[k] == at(k) }

  lemma ReadsMeasured(polls: seq<nat>, at: nat -> nat, n: nat, reload: nat)
    requires 0 < reload && ReadsOf(polls, at, n) && Ordered(polls)
    ensures 0 <= Measured(polls, reload) <= at(n) - at(0)
    ensures TimelyReads(at, reload, n) ==> Measured(polls, reload) == at(n) - at(0)
  {
    MeasuredExact(polls, reload);
  }

  lemma ReadNext(polls: seq<nat>, at: nat -> nat, n: nat, reload: nat)
    requires 0 < reload <= MAX_RELOAD && ReadsOf(polls, at, n) && Advancing(at, reload)
    ensures polls[n] == at(n) <= at(n + 1) && ReadsOf(polls + [at(n + 1)], at, n + 1)
    ensures Measured(polls, reload) < Measured(polls + [at(n + 1)], reload) < Measured(polls, reload) + MAX_RELOAD
  {
    MeasuredNext(polls, at(n + 1), reload);
    var k := n + 1;
    assert at(n) <= at(k);
  }

  /** Polls the status until `mask` shows `value` or the stopwatch reaches `limit`; status poll `k` lies between reads
    * `k` and `k + 1` of the counter. A timeout means that `limit` clocks really passed, however late the reads; with
    * timely reads it comes at the first of them to find so many passed. */
  method WaitStatus(timer: Timer, at: nat -> nat, status: nat -> bv8, mask: bv8, value: bv8, limit: int)
    returns (ok: bool, n: nat)
    requires timer.Valid() && timer.loaded <= at(0) && limit <= 0x4000_0000 && Advancing(at, timer.reload)
    ensures ok ==> Shows(status(n), mask, value)
    ensures forall k :: 0 <= k < n ==> !Shows(status(k), mask, value)
    ensures !ok ==> n > 0 && at(n) - at(0) >= limit
    ensures !ok && n > 1 && TimelyReads(at, timer.reload, n - 1) ==> at(n - 1) - at(0) < limit
    ensures ok && n > 0 && TimelyReads(at, timer.reload, n) ==> at(n) - at(0) < limit
  {
    hide Measured, Counter, Int32, Shows, Advancing, TimelyReads, Ordered, ReadsOf, Stopwatch.Valid;
    var watch := new Stopwatch;
    watch.StartStopwatch(timer, at(0));
    n := 0;
    FirstRead(at, timer.reload);
    while true
      invariant watch.Valid(timer) && fresh(watch) && ReadsOf(watch.polls, at, n)
      invariant forall k :: 0 <= k < n ==> !Shows(status(k), mask, value)
      invariant 0 <= Measured(watch.polls, timer.reload) && (n > 0 ==> Measured(watch.polls, timer.reload) < limit)
      decreases limit - Measured(watch.polls, timer.reload)
    {
      watch.Shown(timer);
      ReadsMeasured(watch.polls, at, n, timer.reload);
      if Shows(status(n), mask, value) {
        return true, n;
      }
      ReadNext(watch.polls, at, n, timer.reload);
      LastRead(watch.polls, at, n);
      var elapsed := watch.GetElapsedClock(timer, at(n + 1));
      n := n + 1;
      watch.Shown(timer);
      ReadsMeasured(watch.polls, at, n, timer.reload);
      if !(elapsed < limit) {
        return false, n;
      }
    }
  }

  lemma FirstRead(at: nat -> nat, reload: nat)
    requires 0 < reload
    ensures ReadsOf([at(0)], at, 0) && Measured([at(0)], reload) == 0
  {
  }

  lemma LastRead(polls: seq<nat>, at: nat -> nat, n: nat)
    requires ReadsOf(polls, at, n)
    ensures |polls| == n + 1 && polls[|polls| - 1] == at(n)
  {
  }
}
