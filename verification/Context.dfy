/** Saving and restoring a process: the interrupt stubs of kernel/arch/Handler.asm, the swap of the interrupt
  * frame in timeoutSchedule, and switchContext of kernel/arch/ContextSwitching.asm. */
module Context {
  import opened Common
  import opened Words

  type Word = w: int | 0 <= w < QWORD
  type Seg = s: int | 0 <= s < 0x10000
  type Pid = p: int | 0 <= p < 1024

  // addresses of Process.h and Descriptor.h; a packed PCB is 237 bytes and its context starts at byte 45
  const PCB_POOL_ADDRESS: int := 0x1000000
  const PCB_SIZE: int := 237
  const CONTEXT_OFFSET: int := 45
  const CONTEXT_SIZE: int := 192
  const POOL_END: int := PCB_POOL_ADDRESS + 1024 * PCB_SIZE
  const IST_START: int := 0xB00000
  const IST_TOP: int := 0xC00000
  const FRAME: int := IST_TOP - CONTEXT_SIZE

  function CtxAddr(p: Pid): int { PCB_POOL_ADDRESS + PCB_SIZE * p + CONTEXT_OFFSET }

  /** Everything a program can see of the CPU. */
  datatype Regs = Regs(
    gs: Seg, fs: Seg, es: Seg, ds: Seg,
    rax: Word, rbx: Word, rcx: Word, rdx: Word, rsi: Word, rdi: Word, rbp: Word,
    r8: Word, r9: Word, r10: Word, r11: Word, r12: Word, r13: Word, r14: Word, r15: Word,
    rip: Word, cs: Seg, rflags: Word, rsp: Word, ss: Seg)

  function Low(w: Word): Seg { w % 0x10000 }

  /** `mov ax, s`: only the low 16 bits of rax change. */
  function SetLow(w: Word, s: Seg): (r: Word)
    ensures Low(r) == s
  {
    w - w % 0x10000 + s
  }

  /** The flags an addition or a comparison writes: CF, PF, AF, ZF, SF and OF. */
  function Arith(f: Word): int {
    f % 2 + f / 4 % 2 * 4 + f / 16 % 2 * 16 + f / 64 % 2 * 64 + f / 128 % 2 * 128 + f / 2048 % 2 * 2048
  }

  /** All other flags. */
  function SystemFlags(f: Word): int { f - Arith(f) }

  /** Memory by the address of each 8-byte word in use; words never written read as 0. */
  type Memory = map<int, Word>

  function Read(mem: Memory, a: int): Word { if a in mem then mem[a] else 0 }

  // the words SAVEREG leaves from `base` upwards: the segment registers, of which es and ds carry rubbish
  // above their low 16 bits, then two groups of general registers
  ghost predicate HoldsSegs(mem: Memory, base: int, r: Regs) {
    && Read(mem, base) == r.gs && Read(mem, base + 8) == r.fs
    && Low(Read(mem, base + 16)) == r.es && Low(Read(mem, base + 24)) == r.ds
  }

  ghost predicate HoldsOld(mem: Memory, base: int, r: Regs) {
    && Read(mem, base + 32) == r.rax && Read(mem, base + 40) == r.rbx && Read(mem, base + 48) == r.rcx
    && Read(mem, base + 56) == r.rdx && Read(mem, base + 64) == r.rsi && Read(mem, base + 72) == r.rdi
    && Read(mem, base + 80) == r.rbp
  }

  ghost predicate HoldsR8(mem: Memory, base: int, r: Regs) {
    && Read(mem, base + 88) == r.r8 && Read(mem, base + 96) == r.r9 && Read(mem, base + 104) == r.r10
    && Read(mem, base + 112) == r.r11
  }

  ghost predicate HoldsR12(mem: Memory, base: int, r: Regs) {
    && Read(mem, base + 120) == r.r12 && Read(mem, base + 128) == r.r13 && Read(mem, base + 136) == r.r14
    && Read(mem, base + 144) == r.r15
  }

  /** The five words the CPU pushes, or switchContext stores, above them. */
  ghost predicate HoldsHigh(mem: Memory, base: int, r: Regs) {
    && Read(mem, base + 152) == r.rip && Low(Read(mem, base + 160)) == r.cs && Read(mem, base + 168) == r.rflags
    && Read(mem, base + 176) == r.rsp && Low(Read(mem, base + 184)) == r.ss
  }

  ghost predicate HoldsLow(mem: Memory, base: int, r: Regs) {
    HoldsSegs(mem, base, r) && HoldsOld(mem, base, r) && HoldsR8(mem, base, r) && HoldsR12(mem, base, r)
  }

  /** The ProcessContext at `base` is `r`. */
  ghost predicate Holds(mem: Memory, base: int, r: Regs) { HoldsLow(mem, base, r) && HoldsHigh(mem, base, r) }

  /** `b` agrees with `a` outside the bytes lo..hi. */
  ghost predicate SameOutside(a: Memory, b: Memory, lo: int, hi: int) {
    forall x :: !(lo <= x < hi) ==> Read(b, x) == Read(a, x)
  }

  class Cpu {
    var regs: Regs
    var mem: Memory

    constructor (r: Regs, m: Memory)
      ensures regs == r && mem == m
    {
      regs, mem := r, m;
    }

    method Push(w: Word)
      requires regs.rsp >= 8
      modifies this
      ensures regs == old(regs).(rsp := old(regs.rsp) - 8) && mem == old(mem)[old(regs.rsp) - 8 := w]
    {
      regs := regs.(rsp := regs.rsp - 8);
      mem := mem[regs.rsp := w];
    }

    method Pop() returns (w: Word)
      requires regs.rsp + 8 < QWORD
      modifies this`regs
      ensures w == Read(mem, old(regs.rsp)) && regs == old(regs).(rsp := old(regs.rsp) + 8)
    {
      w := Read(mem, regs.rsp);
      regs := regs.(rsp := regs.rsp + 8);
    }

    /** An arithmetic instruction's effect on the flags. */
    method Alu()
      modifies this`regs
      ensures regs == old(regs).(rflags := regs.rflags) && SystemFlags(regs.rflags) == SystemFlags(old(regs.rflags))
    {
      var f: Word :| SystemFlags(f) == SystemFlags(regs.rflags);
      regs := regs.(rflags := f);
    }

    method SaveR12()
      requires regs.rsp >= 32
      modifies this
      ensures regs == old(regs).(rsp := old(regs.rsp) - 32)
      ensures HoldsR12(mem, regs.rsp - 120, old(regs)) && SameOutside(old(mem), mem, regs.rsp, regs.rsp + 32)
    {
      Push(regs.r15);
      Push(regs.r14);
      Push(regs.r13);
      Push(regs.r12);
    }

    method SaveR8()
      requires regs.rsp >= 32
      modifies this
      ensures regs == old(regs).(rsp := old(regs.rsp) - 32)
      ensures HoldsR8(mem, regs.rsp - 88, old(regs)) && SameOutside(old(mem), mem, regs.rsp, regs.rsp + 32)
    {
      Push(regs.r11);
      Push(regs.r10);
      Push(regs.r9);
      Push(regs.r8);
    }

    method SaveOld()
      requires regs.rsp >= 56
      modifies this
      ensures regs == old(regs).(rsp := old(regs.rsp) - 56)
      ensures HoldsOld(mem, regs.rsp - 32, old(regs)) && SameOutside(old(mem), mem, regs.rsp, regs.rsp + 56)
    {
      SavePointers();
      Push(regs.rcx);
      Push(regs.rbx);
      Push(regs.rax);
    }

    /** rbp, rdi, rsi and rdx. */
    method SavePointers()
      requires regs.rsp >= 32
      modifies this
      ensures regs == old(regs).(rsp := old(regs.rsp) - 32) && SameOutside(old(mem), mem, regs.rsp, regs.rsp + 32)
      ensures Read(mem, regs.rsp) == old(regs.rdx) && Read(mem, regs.rsp + 8) == old(regs.rsi)
      ensures Read(mem, regs.rsp + 16) == old(regs.rdi) && Read(mem, regs.rsp + 24) == old(regs.rbp)
    {
      Push(regs.rbp);
      Push(regs.rdi);
      Push(regs.rsi);
      Push(regs.rdx);
    }

    method SaveSegs()
      requires regs.rsp >= 32
      modifies this
      ensures regs == old(regs).(rsp := old(regs.rsp) - 32, rax := regs.rax)
      ensures HoldsSegs(mem, regs.rsp, old(regs)) && SameOutside(old(mem), mem, regs.rsp, regs.rsp + 32)
    {
      regs := regs.(rax := SetLow(regs.rax, regs.ds));
      Push(regs.rax);
      regs := regs.(rax := SetLow(regs.rax, regs.es));
      Push(regs.rax);
      Push(regs.fs);
      Push(regs.gs);
    }

    /** SAVEREG. */
    method SaveReg()
      requires regs.rsp >= 152
      modifies this
      ensures regs == old(regs).(rsp := old(regs.rsp) - 152, rax := regs.rax)
      ensures HoldsLow(mem, regs.rsp, old(regs)) && SameOutside(old(mem), mem, regs.rsp, regs.rsp + 152)
    {
      SaveR12();
      SaveR8();
      SaveOld();
      SaveSegs();
    }

    method LoadSegs(ghost r: Regs)
      requires HoldsSegs(mem, regs.rsp, r) && regs.rsp + 32 < QWORD
      modifies this`regs
      ensures regs == old(regs).(gs := r.gs, fs := r.fs, es := r.es, ds := r.ds, rsp := old(regs.rsp) + 32, rax := regs.rax)
    {
      var w := Pop();
      regs := regs.(gs := Low(w));
      w := Pop();
      regs := regs.(fs := Low(w));
      w := Pop();
      regs := regs.(rax := w);
      regs := regs.(es := Low(regs.rax));
      w := Pop();
      regs := regs.(rax := w);
      regs := regs.(ds := Low(regs.rax));
    }

    method LoadOld(ghost r: Regs)
      requires HoldsOld(mem, regs.rsp - 32, r) && regs.rsp + 56 < QWORD
      modifies this`regs
      ensures regs == old(regs).(rax := r.rax, rbx := r.rbx, rcx := r.rcx, rdx := r.rdx, rsi := r.rsi, rdi := r.rdi,
                                 rbp := r.rbp, rsp := old(regs.rsp) + 56)
    {
      var w := Pop();
      regs := regs.(rax := w);
      w := Pop();
      regs := regs.(rbx := w);
      w := Pop();
      regs := regs.(rcx := w);
      LoadPointers(r);
    }

    /** rdx, rsi, rdi and rbp. */
    method LoadPointers(ghost r: Regs)
      requires regs.rsp + 32 < QWORD
      requires Read(mem, regs.rsp) == r.rdx && Read(mem, regs.rsp + 8) == r.rsi
      requires Read(mem, regs.rsp + 16) == r.rdi && Read(mem, regs.rsp + 24) == r.rbp
      modifies this`regs
      ensures regs == old(regs).(rdx := r.rdx, rsi := r.rsi, rdi := r.rdi, rbp := r.rbp, rsp := old(regs.rsp) + 32)
    {
      var w := Pop();
      regs := regs.(rdx := w);
      w := Pop();
      regs := regs.(rsi := w);
      w := Pop();
      regs := regs.(rdi := w);
      w := Pop();
      regs := regs.(rbp := w);
    }

    method LoadR8(ghost r: Regs)
      requires HoldsR8(mem, regs.rsp - 88, r) && regs.rsp + 32 < QWORD
      modifies this`regs
      ensures regs == old(regs).(r8 := r.r8, r9 := r.r9, r10 := r.r10, r11 := r.r11, rsp := old(regs.rsp) + 32)
    {
      var w := Pop();
      regs := regs.(r8 := w);
      w := Pop();
      regs := regs.(r9 := w);
      w := Pop();
      regs := regs.(r10 := w);
      w := Pop();
      regs := regs.(r11 := w);
    }

    method LoadR12(ghost r: Regs)
      requires HoldsR12(mem, regs.rsp - 120, r) && regs.rsp + 32 < QWORD
      modifies this`regs
      ensures regs == old(regs).(r12 := r.r12, r13 := r.r13, r14 := r.r14, r15 := r.r15, rsp := old(regs.rsp) + 32)
    {
      var w := Pop();
      regs := regs.(r12 := w);
      w := Pop();
      regs := regs.(r13 := w);
      w := Pop();
      regs := regs.(r14 := w);
      w := Pop();
      regs := regs.(r15 := w);
    }

    /** LOADREG. */
    method LoadReg(ghost r: Regs)
      requires HoldsLow(mem, regs.rsp, r) && regs.rsp + 152 < QWORD
      modifies this`regs
      ensures regs == r.(rip := old(regs.rip), cs := old(regs.cs), rflags := old(regs.rflags), rsp := old(regs.rsp) + 152, ss := old(regs.ss))
    {
      LoadSegs(r);
      LoadOld(r);
      LoadR8(r);
      LoadR12(r);
    }

    /** iretq. */
    method Iretq(ghost base: int, ghost r: Regs)
      requires regs.rsp == base + 152 && HoldsHigh(mem, base, r) && regs.rsp + 40 < QWORD
      modifies this`regs
      ensures regs == old(regs).(rip := r.rip, cs := r.cs, rflags := r.rflags, rsp := r.rsp, ss := r.ss)
    {
      var rip := Pop();
      var cs := Pop();
      var rflags := Pop();
      var rsp := Pop();
      var ss := Pop();
      regs := regs.(rip := rip, cs := Low(cs), rflags := rflags, rsp := rsp, ss := Low(ss));
    }

    /** What the CPU does on an interrupt through a gate with the IST stack. */
    method EnterInterrupt()
      modifies this
      ensures regs == old(regs).(rsp := FRAME + 152)
      ensures HoldsHigh(mem, FRAME, old(regs)) && SameOutside(old(mem), mem, FRAME + 152, IST_TOP)
    {
      var was := regs;
      regs := regs.(rsp := IST_TOP);
      Push(was.ss);
      Push(was.rsp);
      Push(was.rflags);
      Push(was.cs);
      Push(was.rip);
    }

    method Store(a: int, w: Word)
      modifies this`mem
      ensures mem == old(mem)[a := w]
    {
      mem := mem[a := w];
    }

    /** switchContext up to `push rax`: the frame pointer is set up and the flags are restored after the test
      * of rdi. */
    method Prologue()
      requires 24 <= regs.rsp
      modifies this
      ensures regs == old(regs).(rsp := old(regs.rsp) - 16, rbp := old(regs.rsp) - 8)
      ensures Read(mem, regs.rsp) == old(regs.rax) && Read(mem, regs.rsp + 8) == old(regs.rbp)
      ensures SameOutside(old(mem), mem, old(regs.rsp) - 24, old(regs.rsp))
    {
      hide SystemFlags;
      Push(regs.rbp);
      regs := regs.(rbp := regs.rsp);
      Push(regs.rflags);
      Alu();
      var f := Pop();
      regs := regs.(rflags := f);
      Push(regs.rax);
    }

    /** ss and the caller's rsp. */
    method StoreStack(base: int)
      requires regs.rbp + 16 < QWORD
      modifies this
      ensures regs == old(regs).(rax := regs.rax, rflags := regs.rflags) && SystemFlags(regs.rflags) == SystemFlags(old(regs.rflags))
      ensures Read(mem, base + 176) == regs.rbp + 16 && Low(Read(mem, base + 184)) == regs.ss
      ensures SameOutside(old(mem), mem, base + 176, base + 192)
    {
      hide SystemFlags;
      regs := regs.(rax := SetLow(regs.rax, regs.ss));
      Store(base + 184, regs.rax);
      regs := regs.(rax := regs.rbp);
      regs := regs.(rax := regs.rax + 16);
      Alu();
      Store(base + 176, regs.rax);
    }

    /** The flags and cs. */
    method StoreFlags(base: int)
      requires 8 <= regs.rsp && (base + CONTEXT_SIZE <= regs.rsp - 8 || regs.rsp <= base)
      modifies this
      ensures regs == old(regs).(rax := regs.rax)
      ensures Read(mem, base + 168) == regs.rflags && Low(Read(mem, base + 160)) == regs.cs
      ensures forall x :: !(base + 160 <= x < base + 176) && !(regs.rsp - 8 <= x < regs.rsp) ==> Read(mem, x) == Read(old(mem), x)
    {
      hide Low;
      Push(regs.rflags);
      var f := Pop();
      regs := regs.(rax := f);
      Store(base + 168, regs.rax);
      regs := regs.(rax := SetLow(regs.rax, regs.cs));
      Store(base + 160, regs.rax);
    }

    /** The return address, and the scratch registers back. */
    method StoreReturn(base: int, ghost rax: Word, ghost rbp: Word)
      requires regs.rbp == regs.rsp + 8 && regs.rsp + 16 < QWORD
      requires base + CONTEXT_SIZE <= regs.rsp || regs.rsp + 16 <= base
      requires Read(mem, regs.rsp) == rax && Read(mem, regs.rsp + 8) == rbp
      modifies this
      ensures regs == old(regs).(rsp := old(regs.rsp) + 16, rax := rax, rbp := rbp)
      ensures mem == old(mem)[base + 152 := Read(old(mem), old(regs.rsp) + 16)]
    {
      regs := regs.(rax := Read(mem, regs.rbp + 8));
      Store(base + 152, regs.rax);
      var a := Pop();
      regs := regs.(rax := a);
      a := Pop();
      regs := regs.(rbp := a);
    }

    /** The first half of switchContext: the five words above the general registers. */
    method SaveHigh(base: int)
      requires 24 <= regs.rsp && regs.rsp + 8 < QWORD
      requires base + CONTEXT_SIZE <= regs.rsp - 24 || regs.rsp + 8 <= base
      modifies this
      ensures var was := old(regs);
              && regs == was.(rflags := regs.rflags) && SystemFlags(regs.rflags) == SystemFlags(was.rflags)
              && HoldsHigh(mem, base, was.(rip := Read(old(mem), was.rsp), rsp := was.rsp + 8, rflags := regs.rflags))
              && forall x :: !(base + 152 <= x < base + 192) && !(was.rsp - 24 <= x < was.rsp) ==> Read(mem, x) == Read(old(mem), x)
    {
      hide SystemFlags, Low;
      Prologue();
      StoreStack(base);
      StoreFlags(base);
      StoreReturn(base, old(regs.rax), old(regs.rbp));
    }

    /** memcpy of one ProcessContext. */
    method Copy(dest: int, src: int)
      requires dest + CONTEXT_SIZE <= src || src + CONTEXT_SIZE <= dest
      modifies this`mem
      ensures forall r: Regs :: Holds(old(mem), src, r) ==> Holds(mem, dest, r)
      ensures SameOutside(old(mem), mem, dest, dest + CONTEXT_SIZE)
    {
      for i := 0 to 24
        invariant forall j :: 0 <= j < i ==> Read(mem, dest + 8 * j) == Read(old(mem), src + 8 * j)
        invariant SameOutside(old(mem), mem, dest, dest + CONTEXT_SIZE)
      {
        mem := mem[dest + 8 * i := Read(mem, src + 8 * i)];
      }
      CopyHolds(old(mem), mem, src, dest);
    }

    /** What compiled C code may do to the CPU and to the part of the interrupt stack below the frame. */
    method Clobber(junk: Regs, scratch: Memory)
      requires forall a :: a in scratch ==> IST_START <= a < FRAME
      modifies this
      ensures regs == junk.(rsp := old(regs.rsp)) && SameOutside(old(mem), mem, IST_START, FRAME)
    {
      regs := junk.(rsp := regs.rsp);
      mem := mem + scratch;
    }
  }

  lemma CopyHolds(a: Memory, b: Memory, src: int, dest: int)
    requires forall j :: 0 <= j < 24 ==> Read(b, dest + 8 * j) == Read(a, src + 8 * j)
    ensures forall r: Regs :: Holds(a, src, r) ==> Holds(b, dest, r)
  {
    assert Same4(a, b, src, dest, 0) && Same4(a, b, src, dest, 4) && Same4(a, b, src, dest, 8)
        && Same4(a, b, src, dest, 12) && Same4(a, b, src, dest, 16) && Same4(a, b, src, dest, 20);
  }

  predicate Same4(a: Memory, b: Memory, src: int, dest: int, j: int) {
    && Read(b, dest + 8 * j) == Read(a, src + 8 * j) && Read(b, dest + 8 * (j + 1)) == Read(a, src + 8 * (j + 1))
    && Read(b, dest + 8 * (j + 2)) == Read(a, src + 8 * (j + 2)) && Read(b, dest + 8 * (j + 3)) == Read(a, src + 8 * (j + 3))
  }

  /** Writes elsewhere leave a saved context alone. */
  lemma Keeps(a: Memory, b: Memory, lo: int, hi: int, base: int, r: Regs)
    requires SameOutside(a, b, lo, hi) && Holds(a, base, r) && (base + CONTEXT_SIZE <= lo || hi <= base)
    ensures Holds(b, base, r)
  {
  }

  /** Contexts lie inside the pool, apart from each other and from the interrupt stack. */
  lemma ContextsApart(p: Pid, q: Pid)
    ensures p != q ==> CtxAddr(p) + CONTEXT_SIZE <= CtxAddr(q) || CtxAddr(q) + CONTEXT_SIZE <= CtxAddr(p)
    ensures IST_TOP <= PCB_POOL_ADDRESS <= CtxAddr(p) && CtxAddr(p) + CONTEXT_SIZE <= POOL_END
  {
  }

  /** The view of a process: the CPU if it runs, its saved context otherwise. */
  ghost predicate Views(regs: Regs, mem: Memory, running: Pid, v: map<Pid, Regs>) {
    running in v && regs == v[running] && Parked(mem, running, v)
  }

  ghost predicate Parked(mem: Memory, running: Pid, v: map<Pid, Regs>) {
    forall p: Pid :: p in v && p != running ==> Holds(mem, CtxAddr(p), v[p])
  }

  /** Writes outside the pool leave every saved context alone. */
  lemma KeepsAll(a: Memory, b: Memory, lo: int, hi: int, running: Pid, v: map<Pid, Regs>)
    requires SameOutside(a, b, lo, hi) && Parked(a, running, v) && (hi <= PCB_POOL_ADDRESS || POOL_END <= lo)
    ensures Parked(b, running, v)
  {
    forall p: Pid | p in v && p != running ensures Holds(b, CtxAddr(p), v[p]) {
      ContextsApart(p, p);
      Keeps(a, b, lo, hi, CtxAddr(p), v[p]);
    }
  }

  class Dispatcher {
    const cpu: Cpu
    var running: Pid

    constructor (c: Cpu, p: Pid)
      ensures cpu == c && running == p
    {
      cpu, running := c, p;
    }

    /** The copies of timeoutSchedule: the interrupted process's frame goes to its context, the next one's
      * context becomes the frame. */
    method SwapFrame(next: Pid, ghost v: map<Pid, Regs>)
      requires running in v && next in v && next != running
      requires Holds(cpu.mem, FRAME, v[running]) && Parked(cpu.mem, running, v)
      modifies this, cpu`mem
      ensures running == next && Holds(cpu.mem, FRAME, v[next]) && Parked(cpu.mem, next, v)
    {
      hide Holds, SameOutside;
      var cur := running;
      ContextsApart(cur, next);
      ContextsApart(next, cur);
      ghost var m0 := cpu.mem;
      cpu.Copy(CtxAddr(cur), FRAME);
      ghost var m1 := cpu.mem;
      forall p: Pid | p in v ensures Holds(m1, CtxAddr(p), v[p]) {
        if p != cur {
          ContextsApart(p, cur);
          Keeps(m0, m1, CtxAddr(cur), CtxAddr(cur) + CONTEXT_SIZE, CtxAddr(p), v[p]);
        }
      }
      cpu.Copy(FRAME, CtxAddr(next));
      KeepsAll(m1, cpu.mem, FRAME, FRAME + CONTEXT_SIZE, next, v);
      running := next;
    }

    /** A whole interrupt: entry through the IST, the stub, the C handler, and iretq.  Whether or not the
      * handler calls timeoutSchedule, no process sees any difference. */
    method Interrupt(next: Option<Pid>, ghost v: map<Pid, Regs>, junk: Regs, before: Memory, after: Memory)
      requires Views(cpu.regs, cpu.mem, running, v) && (next.Some? ==> next.value in v && next.value != running)
      requires forall a :: a in before || a in after ==> IST_START <= a < FRAME
      modifies this, cpu
      ensures running == (if next.Some? then next.value else old(running))
      ensures Views(cpu.regs, cpu.mem, running, v)
    {
      hide Holds, SameOutside, HoldsSegs, HoldsOld, HoldsR8, HoldsR12, HoldsHigh, Parked, HoldsLow;
      ghost var r := v[running];
      ghost var m0 := cpu.mem;
      cpu.EnterInterrupt();
      KeepsAll(m0, cpu.mem, FRAME + 152, IST_TOP, running, v);
      ghost var m1 := cpu.mem;
      ghost var r1 := cpu.regs;
      cpu.SaveReg();
      KeepsAll(m1, cpu.mem, FRAME, FRAME + 152, running, v);
      FrameComplete(m1, cpu.mem, r, r1);
      ghost var m2 := cpu.mem;
      cpu.Clobber(junk, before);
      KeepsAll(m2, cpu.mem, IST_START, FRAME, running, v);
      Keeps(m2, cpu.mem, IST_START, FRAME, FRAME, r);
      if next.Some? {
        SwapFrame(next.value, v);
      }
      ghost var m3 := cpu.mem;
      cpu.Clobber(junk, after);
      KeepsAll(m3, cpu.mem, IST_START, FRAME, running, v);
      Keeps(m3, cpu.mem, IST_START, FRAME, FRAME, v[running]);
      FrameParts(cpu.mem, v[running]);
      cpu.LoadReg(v[running]);
      cpu.Iretq(FRAME, v[running]);
    }

    /** switchContext, called by the running process: it will find itself just after the call, with every
      * register but the arithmetic flags as it was, and nobody else sees any difference. */
    method SwitchContext(next: Pid, ghost v: map<Pid, Regs>) returns (ghost saved: Regs)
      requires Views(cpu.regs, cpu.mem, running, v) && next in v && next != running
      requires cpu.regs.rdi == CtxAddr(running) && cpu.regs.rsi == CtxAddr(next)
      requires 24 <= cpu.regs.rsp && cpu.regs.rsp + 8 < QWORD
      requires POOL_END <= cpu.regs.rsp - 24 || cpu.regs.rsp + 8 <= PCB_POOL_ADDRESS
      modifies this, cpu
      ensures var was := v[old(running)];
              && saved == was.(rip := Read(old(cpu.mem), was.rsp), rsp := was.rsp + 8, rflags := saved.rflags)
              && SystemFlags(saved.rflags) == SystemFlags(was.rflags)
      ensures running == next && Views(cpu.regs, cpu.mem, next, v[old(running) := saved])
    {
      hide HoldsSegs, HoldsOld, HoldsR8, HoldsR12, HoldsHigh, HoldsLow, SystemFlags, Arith;
      var cur := running;
      var base := CtxAddr(cur);
      ContextsApart(cur, next);
      ghost var m0, was := cpu.mem, cpu.regs;
      cpu.SaveHigh(base);
      saved := was.(rip := Read(m0, was.rsp), rsp := was.rsp + 8, rflags := cpu.regs.rflags);
      ghost var m1, r1 := cpu.mem, cpu.regs;
      cpu.regs := cpu.regs.(rdi := cpu.regs.rdi + 152);
      cpu.Alu();
      cpu.regs := cpu.regs.(rsp := cpu.regs.rdi);
      cpu.regs := cpu.regs.(rdi := cpu.regs.rdi - 152);
      cpu.Alu();
      ghost var r2 := cpu.regs;
      cpu.SaveReg();
      ghost var m2 := cpu.mem;
      SavedWhole(m1, m2, base, saved, r2);
      StillParked(m0, m2, was.rsp, cur, v, saved);
      cpu.regs := cpu.regs.(rsp := cpu.regs.rsi);
      assert Holds(m2, CtxAddr(next), v[next]);
      HoldsParts(m2, CtxAddr(next), v[next]);
      cpu.LoadReg(v[next]);
      cpu.Iretq(CtxAddr(next), v[next]);
      running := next;
    }
  }

  lemma HoldsParts(m: Memory, base: int, r: Regs)
    requires Holds(m, base, r)
    ensures HoldsLow(m, base, r) && HoldsHigh(m, base, r)
  {
  }

  lemma SavedWhole(m1: Memory, m2: Memory, base: int, saved: Regs, r2: Regs)
    requires HoldsHigh(m1, base, saved) && HoldsLow(m2, base, r2) && SameOutside(m1, m2, base, base + 152)
    requires r2 == saved.(rip := r2.rip, rsp := r2.rsp, rflags := r2.rflags)
    ensures Holds(m2, base, saved)
  {
  }

  /** The other saved contexts, after writes to the caller's context and stack only. */
  lemma StillParked(m0: Memory, m2: Memory, rsp: int, cur: Pid, v: map<Pid, Regs>, saved: Regs)
    requires Parked(m0, cur, v) && Holds(m2, CtxAddr(cur), saved)
    requires forall x :: !(CtxAddr(cur) <= x < CtxAddr(cur) + CONTEXT_SIZE) && !(rsp - 24 <= x < rsp) ==> Read(m2, x) == Read(m0, x)
    requires POOL_END <= rsp - 24 || rsp + 8 <= PCB_POOL_ADDRESS
    ensures forall p: Pid :: p in v[cur := saved] ==> Holds(m2, CtxAddr(p), v[cur := saved][p])
  {
    forall p: Pid | p in v && p != cur ensures Holds(m2, CtxAddr(p), v[p]) {
      ContextsApart(p, cur);
      KeepsTwo(m0, m2, CtxAddr(cur), rsp, CtxAddr(p), v[p]);
    }
  }

  lemma KeepsTwo(a: Memory, b: Memory, lo: int, rsp: int, base: int, r: Regs)
    requires forall x :: !(lo <= x < lo + CONTEXT_SIZE) && !(rsp - 24 <= x < rsp) ==> Read(b, x) == Read(a, x)
    requires Holds(a, base, r) && (base + CONTEXT_SIZE <= lo || lo + CONTEXT_SIZE <= base)
    requires base + CONTEXT_SIZE <= rsp - 24 || rsp <= base
    ensures Holds(b, base, r)
  {
  }

  lemma FrameComplete(m1: Memory, m2: Memory, r: Regs, r1: Regs)
    requires HoldsHigh(m1, FRAME, r) && r1 == r.(rsp := r1.rsp) && HoldsLow(m2, FRAME, r1) && SameOutside(m1, m2, FRAME, FRAME + 152)
    ensures Holds(m2, FRAME, r)
  {
  }

  lemma FrameParts(m: Memory, r: Regs)
    requires Holds(m, FRAME, r)
    ensures HoldsLow(m, FRAME, r) && HoldsHigh(m, FRAME, r)
  {
  }
}
