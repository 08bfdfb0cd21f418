/** The NES processor's cycle-exact core: every bus cycle ticks the whole machine, may drain
    a DMA window first, and polls the interrupt lines last. Instruction results are left
    arbitrary; what is exact is which bus cycles happen and what they do to the clocks,
    the DMA latches and the interrupt latches. */
module NesCore {
  import opened Basics
  import opened Dma
  import opened DmaProofs
  import opened Opcodes

  /** `instr` counts the cycles of the running instruction, `now` every bus tick so far. */
  datatype Clock = Clock(cycles: nat, instr: nat, master: nat, now: nat)

  datatype Poll = Poll(nmiLine: bool, nmiLinePrev: bool, nmiPending: bool, nmiDue: bool, nmiPollPrev: bool,
                       irqLine: bool, irqDue: bool, irqPollPrev: bool)

  /** How often nmiPending rose, how it was consumed, the sprite bytes DMA wrote, and the addresses
      of the processor's last read and of the one before. */
  datatype Tally = Tally(rises: nat, services: nat, hijacks: nat, oamWrites: nat, last: Word, prior: Word)

  datatype Event = Stopped | NmiEntry | IrqEntry | Executed(op: Byte, extra: nat, crossed: bool)

  const START_READ := 5
  const END_READ := 7
  const START_WRITE := 7
  const END_WRITE := 5

  predicate IsEntry(e: Event) {
    e.NmiEntry? || e.IrqEntry? || (e.Executed? && e.op == BRK_OPCODE)
  }

  const NMI_VECTOR: Word := 0xFFFA
  const IRQ_VECTOR: Word := 0xFFFE

  function Page(a: Word): Byte {
    a / 0x100
  }

  /** n bytes further on. */
  function Ahead(a: Word, n: nat): Word
    requires n < 0x1_0000
  {
    if a + n < 0x1_0000 then a + n else a + n - 0x1_0000
  }

  function Unindexed(a: Word, index: Byte): Word {
    if index <= a then a - index else a + 0x1_0000 - index
  }

  /** Indexing by `index` to address `a` leaves the page of the base. */
  predicate Crosses(a: Word, index: Byte) {
    Page(Unindexed(a, index)) != Page(a)
  }

  /** Where a branch with `extra` cycles ends up: on the next instruction, or elsewhere, with the
      second extra cycle exactly when that lies on another page than the next instruction. */
  predicate BranchLands(extra: nat, next: Word, pc: Word) {
    if extra == 0 then pc == next else extra == (if Page(pc) != Page(next) then 2 else 1)
  }

  /** What an instruction does to the I flag: CLI clears it, SEI sets it, PLP, RTI and BRK may change it, and
      nothing else does. */
  predicate MaskFollows(a: Action, before: bool, after: bool) {
    if a.ClearMask? then !after
    else if a.SetMask? then after
    else a.PullStatus? || a.ReturnInterrupt? || a.Break? || after == before
  }

  /** Where a displacement leads: back from 128 on. */
  function Target(next: Word, displacement: Byte): Word {
    if displacement < 0x80 then Ahead(next, displacement) else Unindexed(next, 0x100 - displacement)
  }

  lemma IndexedFrom(base: Word, index: Byte)
    ensures Unindexed((base + index) % 0x1_0000, index) == base
  {
  }

  // ---------- the interrupt lines, tick by tick ----------

  /** The byte a read in tick t returns. */
  function Data(env: Env, t: nat): Byte {
    env(t).data
  }

  predicate IrqLine(env: Env, t: nat) {
    env(t).irqLine
  }

  predicate NmiLine(env: Env, t: nat) {
    env(t).nmiLine
  }

  /** The NMI line rises in tick t. */
  predicate Edge(env: Env, t: nat) {
    NmiLine(env, t) && (t == 0 || !NmiLine(env, t - 1))
  }

  /** The NMI line rises in some tick from `first` on and before `stop`. */
  predicate Rise(env: Env, first: nat, stop: nat)
    decreases stop
  {
    first < stop && (Edge(env, stop - 1) || Rise(env, first, stop - 1))
  }

  /** An NMI was pending at tick `first`, or has come up before tick `stop`. */
  predicate NmiBy(env: Env, pending: bool, first: nat, stop: nat) {
    pending || Rise(env, first, stop)
  }

  lemma {:induction false} RiseIsAnEdge(env: Env, first: nat, stop: nat)
    ensures Rise(env, first, stop) <==> exists t: nat :: first <= t < stop && Edge(env, t)
    decreases stop
  {
    if first < stop {
      RiseIsAnEdge(env, first, stop - 1);
    }
  }

  /** The line level the edge detector remembers is that of the last tick. */
  ghost predicate LineRemembered(env: Env, p: Poll, now: nat) {
    (now == 0 ==> !p.nmiLinePrev) && forall t: nat | t + 1 == now :: p.nmiLinePrev == NmiLine(env, t)
  }

  /** The NMI latches in terms of the line: pending by now, and pending before the last tick. */
  ghost predicate NmiKnown(env: Env, p: Poll, now: nat, since: nat, pending: bool) {
    && LineRemembered(env, p, now) && since <= now && (now > since ==> p.nmiPollPrev == p.nmiPending)
    && forall t: nat | t >= since ::
         && (t == now ==> p.nmiPending == NmiBy(env, pending, since, t))
         && (since < t && t + 1 == now ==> p.nmiDue == NmiBy(env, pending, since, t))
  }

  /** The IRQ latches in terms of the line: the last tick and the one before it. */
  ghost predicate IrqKnown(env: Env, p: Poll, now: nat, since: nat, masked: bool) {
    && since <= now
    && forall t: nat | t >= since ::
         && (t + 1 == now ==> p.irqPollPrev == (IrqLine(env, t) && !masked))
         && (t + 2 == now ==> p.irqDue == (IrqLine(env, t) && !masked))
  }

  /** One poll: NMI is edge-detected, and both latches move on by one cycle. */
  function Sampled(p: Poll, masked: bool): Poll {
    var pending := p.nmiPending || (p.nmiLine && !p.nmiLinePrev);
    Poll(p.nmiLine, p.nmiLine, pending, p.nmiPollPrev, pending,
         p.irqLine, p.irqPollPrev, p.irqLine && !masked)
  }

  /** The latches after the tick `now`. */
  function PolledAt(env: Env, p: Poll, now: nat, masked: bool): Poll {
    Sampled(p.(nmiLine := NmiLine(env, now), irqLine := IrqLine(env, now)), masked)
  }

  lemma PollKeepsKnown(env: Env, p: Poll, now: nat, since: nat, pending: bool, irqSince: nat, masked: bool)
    requires NmiKnown(env, p, now, since, pending) && IrqKnown(env, p, now, irqSince, masked)
    ensures var p' := PolledAt(env, p, now, masked);
            NmiKnown(env, p', now + 1, since, pending) && IrqKnown(env, p', now + 1, irqSince, masked)
  {
    OneMoreTick(env, pending, since, now);
  }

  lemma IrqLatches(env: Env, p: Poll, now: nat, since: nat, masked: bool)
    requires IrqKnown(env, p, now, since, masked)
    ensures now > since ==> p.irqPollPrev == (IrqLine(env, now - 1) && !masked)
    ensures now > since + 1 ==> p.irqDue == (IrqLine(env, now - 2) && !masked)
  {
  }

  lemma NmiLatches(env: Env, p: Poll, now: nat, since: nat, pending: bool)
    requires NmiKnown(env, p, now, since, pending)
    ensures p.nmiPending == NmiBy(env, pending, since, now)
    ensures now > since + 1 ==> p.nmiDue == NmiBy(env, pending, since, now - 1)
  {
  }

  lemma OneMoreTick(env: Env, pending: bool, first: nat, now: nat)
    requires first <= now
    ensures NmiBy(env, pending, first, now + 1) == (NmiBy(env, pending, first, now) || Edge(env, now))
  {
  }

  /** The IRQ latch after an instruction that began at tick `from` and ended before tick `now`, with
      `masked` the I flag at its polls: the level in the tick before the last. A branch with one
      extra cycle does not count a level that was low until the last cycle before that one, unless
      DMA came between them. */
  predicate IrqPolled(env: Env, from: nat, now: nat, extra: nat, masked: bool, due: bool)
    requires now >= 2 && (extra == 1 ==> now >= 3)
  {
    var before := IrqLine(env, now - 2) && !masked;
    var both := before && IrqLine(env, if extra == 1 then now - 3 else now - 2);
    if extra != 1 then due == before
    else (due ==> before) && (both ==> due) && (now == from + 3 ==> due == both)
  }

  class Nes {
    const env: Env
    const opcodes: seq<Instr>
    /** No sample request arrives from this tick on. */
    ghost const horizon: nat
    var pc: Word
    var x: Byte
    var y: Byte
    /** The I flag. */
    var masked: bool
    var halted: bool
    var clock: Clock
    var dma: Latches
    var dmaPage: Byte
    var poll: Poll
    ghost var tally: Tally
    /** How far the clock that gives DMA its parity runs ahead of the ticks, since the start of the
        running instruction or interrupt entry. */
    ghost var offset: int
    /** The tick since which NMI edges only add up, and whether one was pending then. */
    ghost var since: nat
    ghost var hadNmi: bool
    /** The tick since which IRQ polls use the mask in force and nothing else. */
    ghost var irqSince: nat

    // ---------- what the cycles add up to ----------

    /** Ticks issued but not yet added to Cycles. */
    ghost function Uncounted(): int
      reads this
    {
      clock.now - clock.cycles
    }

    /** Master clock minus what its 12 per tick, less 2 per sprite write, accounts for. */
    ghost function MasterSkew(): int
      reads this
    {
      clock.master - 12 * clock.now + 2 * tally.oamWrites
    }

    /** Rises of nmiPending that are not explained by a service, a hijack or a pending latch. */
    ghost function NmiDebt(): int
      reads this
    {
      tally.rises - tally.services - tally.hijacks - if poll.nmiPending then 1 else 0
    }

    ghost predicate LinesKnown()
      reads this
    {
      LineRemembered(env, poll, clock.now)
    }

    /** A due NMI is a pending NMI. */
    ghost predicate PollSound()
      reads this
    {
      (poll.nmiDue ==> poll.nmiPending) && (poll.nmiPollPrev ==> poll.nmiPending) && LinesKnown()
    }

    ghost predicate Valid() {
      QuietFrom(env, horizon) && IsTable(opcodes)
    }

    /** DMA windows open at the clock `now + offset`. */
    ghost predicate Clocked()
      reads this
    {
      Valid() && clock.cycles + clock.instr == clock.now + offset
    }

    /** The poll latches in terms of the lines, with polls under mask `m`. */
    ghost predicate LatchesKnown(m: bool)
      reads this
    {
      NmiKnown(env, poll, clock.now, since, hadNmi) && IrqKnown(env, poll, clock.now, irqSince, m)
    }

    /** Inside an instruction or entry. */
    ghost predicate Running()
      reads this
    {
      Clocked() && LatchesKnown(masked)
    }

    /** `n` instruction cycles went by, with any DMA windows they drained. */
    twostate predicate Ticked(n: nat)
      reads this
    {
      && clock.instr == old(clock.instr) + n
      && Uncounted() == old(Uncounted()) + n
      && clock.now >= old(clock.now) + n
      && MasterSkew() == old(MasterSkew())
      && NmiDebt() == old(NmiDebt())
      && tally.services == old(tally.services) && tally.hijacks == old(tally.hijacks)
    }

    // ---------- power on ----------

    /** A machine of the NMOS family in any environment and with any DMA latches. */
    constructor (env: Env, horizon: nat, l: Latches, page: Byte)
      requires QuietFrom(env, horizon)
      ensures Valid() && PollSound() && !halted && this.env == env
      ensures forall op: Byte :: opcodes[op] == Table(op)
    {
      this.env := env;
      this.horizon := horizon;
      opcodes := NmosTable();
      pc, x, y, masked, halted := *, *, *, true, false;
      clock := Clock(0, 0, 0, 0);
      dma, dmaPage := l, page;
      poll := Poll(false, false, false, false, false, false, false, false);
      tally := Tally(0, 0, 0, 0, 0, 0);
    }

    // ---------- cycles ----------

    /** The environment's half of a cycle: requests and line levels. */
    method BusTick()
      modifies this`dma, this`poll, this`clock
      ensures var e := env(old(clock.now));
              && dma == React(old(dma), e.dmc)
              && poll == old(poll).(nmiLine := NmiLine(env, old(clock.now)), irqLine := IrqLine(env, old(clock.now)))
              && clock == old(clock).(now := old(clock.now) + 1)
    {
      var e := env(clock.now);
      dma := React(dma, e.dmc);
      poll := poll.(nmiLine := e.nmiLine, irqLine := e.irqLine);
      clock := clock.(now := clock.now + 1);
    }

    /** Edge-detects NMI, then moves both poll latches on by one cycle. */
    method SampleLines()
      modifies this`poll, this`tally
      ensures NmiDebt() == old(NmiDebt()) && tally == old(tally).(rises := tally.rises)
      ensures poll == Sampled(old(poll), masked)
    {
      if poll.nmiLine && !poll.nmiLinePrev {
        if !poll.nmiPending {
          tally := tally.(rises := tally.rises + 1);
        }
        poll := poll.(nmiPending := true);
      }
      poll := poll.(nmiLinePrev := poll.nmiLine);
      poll := poll.(nmiDue := poll.nmiPollPrev);
      poll := poll.(nmiPollPrev := poll.nmiPending);
      poll := poll.(irqDue := poll.irqPollPrev);
      poll := poll.(irqPollPrev := poll.irqLine && !masked);
    }

    /** The poll that ends a tick; `before` is what the latches were when it began. */
    method PollLines(ghost before: Poll, ghost tick: nat)
      requires clock.now == tick + 1 && NmiKnown(env, before, tick, since, hadNmi)
      requires IrqKnown(env, before, tick, irqSince, masked)
      requires poll == before.(nmiLine := NmiLine(env, tick), irqLine := IrqLine(env, tick))
      modifies this`poll, this`tally
      ensures LatchesKnown(masked) && poll.irqDue == before.irqPollPrev
      ensures NmiDebt() == old(NmiDebt()) && tally == old(tally).(rises := tally.rises)
    {
      PollKeepsKnown(env, before, tick, since, hadNmi, irqSince, masked);
      SampleLines();
    }

    /** The processor itself reads nothing. */
    twostate predicate NoRead()
      reads this
    {
      tally.last == old(tally.last) && tally.prior == old(tally.prior)
    }

    /** A cycle of the DMA loop advances Cycles directly. */
    method DmaTick(read: bool, first: Latches)
      requires Running()
      modifies this`dma, this`poll, this`clock, this`tally
      ensures dma == React(first, env(old(clock.now)).dmc)
      ensures clock.cycles == old(clock.cycles) + 1 && clock.now == old(clock.now) + 1
              && clock.instr == old(clock.instr)
      ensures tally.oamWrites == old(tally.oamWrites) + if read then 0 else 1
      ensures Running() && Ticked(0) && NoRead()
    {
      ghost var before, now := poll, clock.now;
      dma := first;
      clock := clock.(master := clock.master + START_READ, cycles := clock.cycles + 1);
      BusTick();
      EndDmaCycle(read);
      PollLines(before, now);
    }

    method EndDmaCycle(read: bool)
      modifies this`clock, this`tally
      ensures clock == old(clock).(master := old(clock.master) + if read then END_READ else END_WRITE)
      ensures tally == old(tally).(oamWrites := old(tally.oamWrites) + if read then 0 else 1)
    {
      if read {
        clock := clock.(master := clock.master + END_READ);
      } else {
        clock := clock.(master := clock.master + END_WRITE);
        tally := tally.(oamWrites := tally.oamWrites + 1);
      }
    }

    /** The window as the DMA loop's local variables describe it. */
    ghost function WindowOf(counter: nat, low: Byte, value: Byte, log: seq<Op>): Window
      reads this
    {
      Window(dma, dmaPage, clock.cycles + clock.instr, clock.now, counter, low, value, log)
    }

    predicate OnGetCycle()
      reads this
    {
      (clock.cycles + clock.instr) % 2 == 0
    }

    /** The four kinds of turn the DMA loop takes. A sample fetch goes before a sprite read. */
    method DmaSample(ghost counter: nat, ghost low: Byte, ghost value: Byte, ghost log: seq<Op>)
      returns (value': Byte, ghost log': seq<Op>)
      requires Running() && OnGetCycle() && SampleReady(dma)
      modifies this`dma, this`poll, this`clock, this`tally
      ensures WindowOf(counter, low, value', log') == Cycle(env, old(WindowOf(counter, low, value, log)))
      ensures tally.oamWrites - old(tally.oamWrites) == |Writes(log')| - |Writes(log)|
      ensures Running() && Ticked(0) && NoRead()
    {
      var tick := env(clock.now);
      DmaTick(true, Process(dma));
      value' := tick.data;
      log' := log + [DmcRead(tick.dmcAddr, value')];
      AppendOp(log, DmcRead(tick.dmcAddr, value'));
      dma := dma.(dmc := false, abort := false);
    }

    method DmaSpriteRead(counter: nat, low: Byte, ghost value: Byte, ghost log: seq<Op>)
      returns (counter': nat, low': Byte, value': Byte, ghost log': seq<Op>)
      requires Running() && OnGetCycle() && !SampleReady(dma) && dma.sprite
      modifies this`dma, this`poll, this`clock, this`tally
      ensures WindowOf(counter', low', value', log') == Cycle(env, old(WindowOf(counter, low, value, log)))
      ensures tally.oamWrites - old(tally.oamWrites) == |Writes(log')| - |Writes(log)|
      ensures Running() && Ticked(0) && NoRead()
    {
      var tick := env(clock.now);
      var address := WordOf(low, dmaPage);
      DmaTick(true, Process(dma));
      value', low', counter' := tick.data, (low + 1) % 0x100, counter + 1;
      log' := log + [SpriteRead(address, value')];
      AppendOp(log, SpriteRead(address, value'));
    }

    method DmaSpriteWrite(counter: nat, ghost low: Byte, value: Byte, ghost log: seq<Op>)
      returns (counter': nat, ghost log': seq<Op>)
      requires Running() && !OnGetCycle() && dma.sprite && counter % 2 == 1
      modifies this`dma, this`poll, this`clock, this`tally
      ensures WindowOf(counter', low, value, log') == Cycle(env, old(WindowOf(counter, low, value, log)))
      ensures tally.oamWrites - old(tally.oamWrites) == |Writes(log')| - |Writes(log)|
      ensures Running() && Ticked(0) && NoRead()
    {
      SpriteStays(dma, env(clock.now).dmc);
      DmaTick(false, Process(dma));
      log' := log + [SpriteWrite(value)];
      AppendOp(log, SpriteWrite(value));
      counter' := counter + 1;
      CloseTransfer(counter');
    }

    method CloseTransfer(counter: nat)
      modifies this`dma
      ensures dma == old(dma).(sprite := old(dma.sprite) && counter != BYTES)
    {
      if counter == BYTES {
        dma := dma.(sprite := false);
      }
    }

    method DmaIdle(ghost counter: nat, ghost low: Byte, ghost value: Byte, ghost log: seq<Op>)
      returns (ghost log': seq<Op>)
      requires Running()
      requires if OnGetCycle() then !SampleReady(dma) && !dma.sprite else !(dma.sprite && counter % 2 == 1)
      modifies this`dma, this`poll, this`clock, this`tally
      ensures WindowOf(counter, low, value, log') == Cycle(env, old(WindowOf(counter, low, value, log)))
      ensures tally.oamWrites - old(tally.oamWrites) == |Writes(log')| - |Writes(log)|
      ensures Running() && Ticked(0) && NoRead()
    {
      DmaTick(true, Process(dma));
      log' := log + [DummyRead];
      AppendOp(log, DummyRead);
    }

    /** One turn of the DMA loop. */
    method DmaCycle(counter: nat, low: Byte, value: Byte, ghost log: seq<Op>)
      returns (counter': nat, low': Byte, value': Byte, ghost log': seq<Op>)
      requires Running()
      modifies this`dma, this`poll, this`clock, this`tally
      ensures WindowOf(counter', low', value', log') == Cycle(env, old(WindowOf(counter, low, value, log)))
      ensures tally.oamWrites - old(tally.oamWrites) == |Writes(log')| - |Writes(log)|
      ensures Running() && Ticked(0) && NoRead()
    {
      counter', low', value' := counter, low, value;
      if OnGetCycle() {
        if SampleReady(dma) {
          value', log' := DmaSample(counter, low, value, log);
        } else if dma.sprite {
          counter', low', value', log' := DmaSpriteRead(counter, low, value, log);
        } else {
          log' := DmaIdle(counter, low, value, log);
        }
      } else if dma.sprite && counter % 2 == 1 {
        counter', log' := DmaSpriteWrite(counter, low, value, log);
      } else {
        log' := DmaIdle(counter, low, value, log);
      }
    }

    /** The dummy read that halts the processor. */
    method HaltCycle()
      requires Running()
      modifies this`dma, this`poll, this`clock, this`tally
      ensures WindowOf(0, 0, 0, [DummyRead])
              == Halt(env, Opening(old(dma), dmaPage, old(clock.cycles + clock.instr), old(clock.now)))
      ensures tally.oamWrites == old(tally.oamWrites)
      ensures Running() && Ticked(0) && NoRead()
    {
      dma := dma.(needHalt := false);
      DmaTick(true, dma);
    }

    method DmaLoop() returns (ghost log: seq<Op>)
      requires Running()
      requires InStep(WindowOf(0, 0, 0, [DummyRead]))
      modifies this`dma, this`poll, this`clock, this`tally
      ensures var d := Drain(env, horizon, old(WindowOf(0, 0, 0, [DummyRead])));
              dma == d.l && clock.now == d.now && clock.cycles + clock.instr == d.clock && log == d.log
      ensures tally.oamWrites == old(tally.oamWrites) + |Writes(log)|
      ensures Running() && Ticked(0) && NoRead()
    {
      log := [DummyRead];
      AppendOp([], DummyRead);
      var counter: nat, low: Byte, value: Byte := 0, 0, 0;
      ghost var start := WindowOf(counter, low, value, log);
      while dma.dmc || dma.sprite
        invariant InStep(WindowOf(counter, low, value, log))
        invariant Drain(env, horizon, WindowOf(counter, low, value, log)) == Drain(env, horizon, start)
        invariant Running() && Ticked(0) && NoRead()
        invariant tally.oamWrites == old(tally.oamWrites) + |Writes(log)|
        decreases if clock.now < horizon then horizon - clock.now else 0, Work(WindowOf(counter, low, value, log))
      {
        ghost var w := WindowOf(counter, low, value, log);
        DrainOnce(env, horizon, w);
        WorkFalls(env, horizon, w);
        counter, low, value, log := DmaCycle(counter, low, value, log);
      }
    }

    /** Drains a pending window before the cycle that found it. */
    method ProcessPendingDma() returns (ghost log: seq<Op>)
      requires Running()
      modifies this`dma, this`poll, this`clock, this`tally
      ensures var d := ProcessPending(env, horizon, old(dma), dmaPage, old(clock.now) + offset, old(clock.now));
              dma == d.l && clock.now == d.now && clock.cycles + clock.instr == d.clock && log == d.log
      ensures tally.oamWrites == old(tally.oamWrites) + |Writes(log)|
      ensures Running() && Ticked(0) && NoRead()
      ensures if old(dma.needHalt) then clock.now > old(clock.now) else poll == old(poll)
    {
      log := [];
      if !dma.needHalt {
        return;
      }
      HaltCycle();
      log := DmaLoop();
    }

    twostate predicate ReadFrom(addr: Word)
      reads this
    {
      tally.last == addr && tally.prior == old(tally.last)
    }

    /** The cycle of a read itself. */
    method Access(addr: Word) returns (v: Byte)
      requires Running()
      modifies this`dma, this`poll, this`clock, this`tally
      ensures Running() && Ticked(1) && tally.oamWrites == old(tally.oamWrites)
      ensures poll.irqDue == old(poll.irqPollPrev) && ReadFrom(addr)
      ensures var tick := env(old(clock.now));
              clock.now == old(clock.now) + 1 && dma == React(old(dma), tick.dmc) && v == tick.data
    {
      ghost var before, now := poll, clock.now;
      clock := clock.(instr := clock.instr + 1, master := clock.master + START_READ);
      tally := tally.(last := addr, prior := tally.last);
      v := env(clock.now).data;
      BusTick();
      clock := clock.(master := clock.master + END_READ);
      PollLines(before, now);
    }

    /** A read or idle cycle: drain the pending window, tick, access, poll. */
    method BusRead(addr: Word) returns (v: Byte)
      requires Running()
      modifies this`dma, this`poll, this`clock, this`tally
      ensures Running() && Ticked(1) && DmaSeen() && Prompt(1) && ReadFrom(addr)
      ensures var d := ProcessPending(env, horizon, old(dma), dmaPage, old(clock.now) + offset, old(clock.now));
              && clock.now == d.now + 1 && dma == React(d.l, env(d.now).dmc) && v == env(d.now).data
              && tally.oamWrites == old(tally.oamWrites) + |Writes(d.log)|
    {
      CalmNow(env, clock.now);
      var _ := ProcessPendingDma();
      v := Access(addr);
    }

    /** After a read without DMA the IRQ latch is the last poll of before; with DMA more ticks went by. */
    twostate predicate DmaSeen()
      reads this
    {
      if old(dma.needHalt) then clock.now >= old(clock.now) + 2
      else clock.now == old(clock.now) + 1 && poll.irqDue == old(poll.irqPollPrev)
    }

    /** When no DMA is waiting and none is asked for, n cycles take n ticks. */
    twostate predicate Prompt(n: nat)
      reads this
    {
      !old(dma.needHalt) && Calm(env, old(clock.now), n) ==> clock.now == old(clock.now) + n && !dma.needHalt
    }

    /** What most callers need to know of a read. */
    method Read(addr: Word) returns (v: Byte)
      requires Running()
      modifies this`dma, this`poll, this`clock, this`tally
      ensures Running() && Ticked(1) && DmaSeen() && Prompt(1) && ReadFrom(addr)
      ensures v == Data(env, clock.now - 1)
    {
      v := BusRead(addr);
    }

    /** A write cycle never waits for DMA; it may start an OAM transfer. */
    method Write(addr: Word)
      requires Running()
      modifies this`dma, this`dmaPage, this`poll, this`clock, this`tally
      ensures Running() && Ticked(1) && Prompt(1) && tally.oamWrites == old(tally.oamWrites)
      ensures NoRead()
      ensures clock.now == old(clock.now) + 1
      ensures var oam := env(old(clock.now)).oam;
              var l := React(old(dma), env(old(clock.now)).dmc);
              if oam.Some? then dmaPage == oam.value && dma == l.(sprite := true, needHalt := true)
              else dmaPage == old(dmaPage) && dma == l
    {
      CalmNow(env, clock.now);
      ghost var before, now := poll, clock.now;
      clock := clock.(instr := clock.instr + 1, master := clock.master + START_WRITE);
      var oam := env(clock.now).oam;
      BusTick();
      StartTransfer(oam);
      clock := clock.(master := clock.master + END_WRITE);
      PollLines(before, now);
    }

    /** What a write to the OAM DMA register leaves behind. */
    method StartTransfer(oam: Option<Byte>)
      modifies this`dma, this`dmaPage
      ensures if oam.Some? then dmaPage == oam.value && dma == old(dma).(sprite := true, needHalt := true)
              else dmaPage == old(dmaPage) && dma == old(dma)
    {
      if oam.Some? {
        dmaPage := oam.value;
        dma := dma.(sprite := true, needHalt := true);
      }
    }

    // ---------- instructions ----------

    /** `n` cycles of an instruction. */
    twostate predicate Ran(n: nat)
      reads this
    {
      Running() && Ticked(n)
    }

    method Fetch() returns (v: Byte)
      requires Running()
      modifies this`pc, this`dma, this`poll, this`clock, this`tally
      ensures Ran(1) && pc == Ahead(old(pc), 1) && ReadFrom(old(pc)) && v == Data(env, clock.now - 1)
    {
      v := Read(pc);
      pc := (pc + 1) % 0x1_0000;
    }

    /** Low byte first. */
    method FetchWord() returns (w: Word)
      requires Running()
      modifies this`pc, this`dma, this`poll, this`clock, this`tally
      ensures Ran(2) && pc == Ahead(old(pc), 2) && tally.prior == old(pc) && tally.last == Ahead(old(pc), 1)
      ensures Page(w) == Data(env, clock.now - 1)
    {
      var lo := Fetch();
      var hi := Fetch();
      w := WordOf(lo, hi);
    }

    method ReadWord(first: Word, second: Word) returns (w: Word)
      requires Running()
      modifies this`dma, this`poll, this`clock, this`tally
      ensures Ran(2) && Prompt(2) && tally.prior == first && tally.last == second
      ensures Page(w) == Data(env, clock.now - 1)
    {
      var lo := Read(first);
      var hi := Read(second);
      w := WordOf(lo, hi);
    }

    function ZeroPage(base: Byte, index: Byte): Byte {
      var sum: int := base + index;
      sum % 0x100
    }

    /** The NMOS bug: a pointer's high byte never comes from the next page. */
    function WrapInPage(ptr: Word): Word {
      var low: int := (ptr + 1) % 0x100;
      ptr - ptr % 0x100 + low
    }

    /** Fetches the operand and resolves the effective address. */
    method Resolve(mode: Mode) returns (addr: Word, crossed: bool)
      requires Running()
      modifies this`pc, this`dma, this`poll, this`clock, this`tally
      ensures Ran(ResolveTicks(mode)) && pc == Ahead(old(pc), FetchedBytes(mode))
      ensures crossed <==> (mode.ABX? && Crosses(addr, x)) || ((mode.ABY? || mode.IZY?) && Crosses(addr, y))
      ensures mode.REL? ==> addr == Target(pc, Data(env, clock.now - 1))
    {
      match mode
      case ABX => addr, crossed := AbsoluteIndexed(x);
      case ABY => addr, crossed := AbsoluteIndexed(y);
      case IZY => addr, crossed := IndirectIndexed();
      case _ =>
        addr := ResolveInPage(mode);
        crossed := false;
    }

    /** The modes that never leave a page. */
    method ResolveInPage(mode: Mode) returns (addr: Word)
      requires Running() && !mode.ABX? && !mode.ABY? && !mode.IZY?
      modifies this`pc, this`dma, this`poll, this`clock, this`tally
      ensures Ran(ResolveTicks(mode)) && pc == Ahead(old(pc), FetchedBytes(mode))
      ensures mode.REL? ==> addr == Target(pc, Data(env, clock.now - 1))
    {
      addr := 0;
      match mode
      case IMP =>
      case ACC =>
      case IMM =>
        addr := pc;
        pc := (pc + 1) % 0x1_0000;
      case ZP => addr := Fetch();
      case ZPX => addr := ZeroPageIndexed(x);
      case ZPY => addr := ZeroPageIndexed(y);
      case REL => addr := Relative();
      case ABS => addr := FetchWord();
      case JSRABS => addr := Fetch();
      case IND => addr := Indirect();
      case IZX => addr := IndexedIndirect();
    }

    method Relative() returns (addr: Word)
      requires Running()
      modifies this`pc, this`dma, this`poll, this`clock, this`tally
      ensures Ran(1) && pc == Ahead(old(pc), 1) && addr == Target(pc, Data(env, clock.now - 1))
    {
      var off: int := Fetch();
      addr := (pc + if off < 0x80 then off else off - 0x100) % 0x1_0000;
    }

    method ZeroPageIndexed(index: Byte) returns (addr: Word)
      requires Running()
      modifies this`pc, this`dma, this`poll, this`clock, this`tally
      ensures Ran(2) && pc == Ahead(old(pc), 1)
    {
      var base := Fetch();
      var _ := Read(base);
      addr := ZeroPage(base, index);
    }

    /** The high byte comes from the page of the pointer, even when the low one ends it. */
    method Indirect() returns (addr: Word)
      requires Running()
      modifies this`pc, this`dma, this`poll, this`clock, this`tally
      ensures Ran(4) && pc == Ahead(old(pc), 2)
      ensures Page(tally.last) == Page(tally.prior) && tally.last % 0x100 == (tally.prior + 1) % 0x100
      ensures Page(addr) == Data(env, clock.now - 1)
    {
      var ptr := FetchWord();
      addr := ReadWord(ptr, WrapInPage(ptr));
    }

    method AbsoluteIndexed(index: Byte) returns (addr: Word, crossed: bool)
      requires Running()
      modifies this`pc, this`dma, this`poll, this`clock, this`tally
      ensures Ran(2) && pc == Ahead(old(pc), 2) && (crossed <==> Crosses(addr, index))
    {
      var base := FetchWord();
      addr := (base + index) % 0x1_0000;
      crossed := base / 0x100 != addr / 0x100;
      IndexedFrom(base, index);
    }

    /** The last two reads took a pointer from page zero, where it wraps. */
    ghost predicate PointerRead()
      reads this
    {
      tally.prior < 0x100 && tally.last == (tally.prior + 1) % 0x100
    }

    method IndexedIndirect() returns (addr: Word)
      requires Running()
      modifies this`pc, this`dma, this`poll, this`clock, this`tally
      ensures Ran(4) && pc == Ahead(old(pc), 1) && PointerRead()
      ensures Page(addr) == Data(env, clock.now - 1)
    {
      var ptr := Fetch();
      var _ := Read(ptr);
      addr := ReadWord(ZeroPage(ptr, x), ZeroPage(ZeroPage(ptr, x), 1));
    }

    method IndirectIndexed() returns (addr: Word, crossed: bool)
      requires Running()
      modifies this`pc, this`dma, this`poll, this`clock, this`tally
      ensures Ran(3) && pc == Ahead(old(pc), 1) && PointerRead() && (crossed <==> Crosses(addr, y))
    {
      var zp := Fetch();
      var base := ReadWord(zp, ZeroPage(zp, 1));
      addr := (base + y) % 0x1_0000;
      crossed := base / 0x100 != addr / 0x100;
      IndexedFrom(base, y);
    }

    /** Dummy cycles of implied and indexed modes. */
    method AddrDummies(i: Instr, addr: Word, crossed: bool)
      requires Running()
      modifies this`dma, this`poll, this`clock, this`tally
      ensures Ran(DummyTicks(i, crossed))
    {
      match i.mode
      case IMP =>
        if i.cycles == 2 {
          var _ := Read(pc);
        }
      case ACC =>
        if i.cycles == 2 {
          var _ := Read(pc);
        }
      case ABX =>
        if !i.pageAdd || crossed {
          var _ := Read(Unfixed(addr, x));
        }
      case ABY =>
        if !i.pageAdd || crossed {
          var _ := Read(Unfixed(addr, y));
        }
      case IZY =>
        if !i.pageAdd || crossed {
          var _ := Read(Unfixed(addr, y));
        }
      case _ =>
    }

    method Operand(i: Instr) returns (addr: Word, crossed: bool)
      requires Running()
      modifies this`pc, this`dma, this`poll, this`clock, this`tally
      ensures Ran(ResolveTicks(i.mode) + DummyTicks(i, crossed)) && pc == Ahead(old(pc), FetchedBytes(i.mode))
      ensures crossed ==> Indexed(i.mode)
    {
      addr, crossed := Resolve(i.mode);
      AddrDummies(i, addr, crossed);
    }

    /** The indexed address before its high byte is fixed up. */
    function Unfixed(addr: Word, index: Byte): Word {
      var base: int := (addr - index) % 0x1_0000;
      base - base % 0x100 + addr % 0x100
    }

    /** Any values at all for the registers an instruction may change. */
    method AnyRegisters()
      modifies this`x, this`y
    {
      var i: Byte, j: Byte := *, *;
      x, y := i, j;
    }

    // ---------- handlers ----------

    /** A relative branch. A taken branch drops an IRQ first seen in its last cycle, and stays
        without it when no further cycle comes between. */
    method BranchTo(target: Word) returns (extra: nat)
      requires Running() && clock.now >= irqSince + 2
      modifies this`pc, this`dma, this`poll, this`clock, this`tally, this`irqSince
      ensures Ran(extra) && extra <= 2 && clock.now >= 2 && (extra == 1 ==> clock.now >= 3)
      ensures extra == 1 ==>
                poll.irqDue == (IrqLine(env, clock.now - 2) && !masked
                                && (old(dma.needHalt) || IrqLine(env, clock.now - 3)))
      ensures IrqPolled(env, old(irqSince), clock.now, extra, masked, poll.irqDue)
      ensures BranchLands(extra, old(pc), pc) && (extra > 0 ==> pc == target)
    {
      extra := 0;
      IrqLatches(env, poll, clock.now, irqSince, masked);
      var take: bool := *;
      if !take {
        return;
      }
      DropFreshIrq();
      extra := TakeBranch(target);
    }

    /** The one or two extra cycles of a taken branch. */
    method TakeBranch(target: Word) returns (extra: nat)
      requires Running() && irqSince == clock.now
      modifies this`pc, this`dma, this`poll, this`clock, this`tally
      ensures Ran(extra) && 1 <= extra <= 2 && (extra == 1 ==> DmaSeen())
      ensures pc == target && BranchLands(extra, old(pc), pc)
      ensures clock.now >= old(clock.now) + 2 ==> poll.irqDue == (IrqLine(env, clock.now - 2) && !masked)
    {
      extra := 1;
      var _ := Read(pc);
      if pc / 0x100 != target / 0x100 {
        extra := 2;
        var _ := Read(pc - pc % 0x100 + target % 0x100);
      }
      IrqLatches(env, poll, clock.now, irqSince, masked);
      pc := target;
    }

    method DropFreshIrq()
      requires Running()
      modifies this`poll, this`irqSince
      ensures Running() && irqSince == clock.now
      ensures poll == old(poll).(irqPollPrev := old(poll.irqPollPrev && poll.irqDue))
    {
      if poll.irqPollPrev && !poll.irqDue {
        poll := poll.(irqPollPrev := false);
      }
      irqSince := clock.now;
    }

    method PushWord()
      requires Running()
      modifies this`dma, this`dmaPage, this`poll, this`clock, this`tally
      ensures Ran(2) && Prompt(2) && clock.now == old(clock.now) + 2
    {
      Write(0x100);
      Write(0x100);
    }

    method Modify(addr: Word)
      requires Running()
      modifies this`dma, this`dmaPage, this`poll, this`clock, this`tally
      ensures Ran(3)
    {
      var _ := Read(addr);
      Write(addr);
      Write(addr);
    }

    method Pull()
      requires Running()
      modifies this`dma, this`poll, this`clock, this`tally
      ensures Ran(3)
    {
      var _ := Read(pc);
      var _ := Read(0x100);
      var _ := Read(0x100);
    }

    /** The high target byte is fetched only after the pushes. */
    method CallTo(low: Byte)
      requires Running()
      modifies this`pc, this`dma, this`dmaPage, this`poll, this`clock, this`tally
      ensures Ran(4)
    {
      var _ := Read(0x100);
      PushWord();
      var hi := Read(pc);
      pc := WordOf(low, hi);
    }

    method ReturnFromCall()
      requires Running()
      modifies this`pc, this`dma, this`poll, this`clock, this`tally
      ensures Ran(5)
    {
      var _ := Read(pc);
      var _ := Read(0x100);
      var back: int := ReadWord(0x100, 0x100);
      var _ := Read(back);
      pc := (back + 1) % 0x1_0000;
    }

    /** A pending NMI takes over the vector of a BRK or IRQ that is already under way. */
    method Hijack() returns (taken: bool)
      requires Running()
      modifies this`poll, this`tally, this`since, this`hadNmi
      ensures Running() && taken == old(poll.nmiPending)
      ensures if taken then poll == old(poll).(nmiPending := false, nmiDue := false, nmiPollPrev := false)
                            && tally == old(tally).(hijacks := old(tally.hijacks) + 1)
              else poll == old(poll) && tally == old(tally)
      ensures NmiDebt() == old(NmiDebt())
    {
      taken := poll.nmiPending;
      if taken {
        poll := poll.(nmiPending := false);
        poll := poll.(nmiDue := false);
        poll := poll.(nmiPollPrev := false);
        tally := tally.(hijacks := tally.hijacks + 1);
        since, hadNmi := clock.now, false;
      }
    }

    /** The mask changes in the middle of an instruction: the polls that follow see the new one. */
    method SwitchMask(m: bool)
      requires Running()
      modifies this`masked, this`irqSince
      ensures Running() && masked == m && irqSince == clock.now
    {
      masked := m;
      irqSince := clock.now;
    }

    /** Pushes P, masks IRQs and loads the vector. Two polls under the mask leave no IRQ due. */
    method LoadVector(vec: Word)
      requires Running() && vec < 0xFFFF
      modifies this`pc, this`masked, this`dma, this`dmaPage, this`poll, this`clock, this`tally, this`irqSince
      ensures Ran(3) && Prompt(3) && masked && !poll.irqDue && !poll.irqPollPrev
      ensures tally.prior == vec && tally.last == vec + 1 && Page(pc) == Data(env, clock.now - 1)
    {
      Write(0x100);
      SwitchMask(true);
      FetchVector(vec);
    }

    method FetchVector(vec: Word)
      requires Running() && vec < 0xFFFF && masked && irqSince == clock.now
      modifies this`pc, this`dma, this`poll, this`clock, this`tally
      ensures Ran(2) && Prompt(2) && !poll.irqDue && !poll.irqPollPrev
      ensures tally.prior == vec && tally.last == vec + 1 && Page(pc) == Data(env, clock.now - 1)
    {
      pc := ReadWord(vec, vec + 1);
      IrqLatches(env, poll, clock.now, irqSince, true);
    }

    /** What an interrupt entry leaves: nothing due, so the handler's first instruction runs. */
    ghost predicate NothingDue()
      reads this
    {
      masked && !poll.nmiDue && !poll.irqDue && !poll.nmiPollPrev && !poll.irqPollPrev
    }

    /** Drops the NMI latches, so that the first instruction of the handler runs. */
    method ForgetNmi()
      requires Running() && masked && !poll.irqDue && !poll.irqPollPrev
      modifies this`poll, this`since, this`hadNmi
      ensures Running() && NothingDue() && NmiDebt() == old(NmiDebt())
    {
      poll := poll.(nmiDue := false);
      poll := poll.(nmiPollPrev := false);
      since, hadNmi := clock.now, poll.nmiPending;
    }

    /** The six cycles of BRK after its fetch. */
    twostate predicate Broke()
      reads this
    {
      && clock.instr == old(clock.instr) + 6 && Uncounted() == old(Uncounted()) + 6
      && MasterSkew() == old(MasterSkew()) && NmiDebt() == old(NmiDebt())
      && tally.services == old(tally.services) && tally.hijacks <= old(tally.hijacks) + 1
      && Running() && NothingDue() && VectorRead(false)
    }

    /** The last two reads took the vector of an NMI, or of one that a BRK or an IRQ was hijacked by,
        or that of IRQ and BRK. */
    twostate predicate VectorRead(nmi: bool)
      reads this
    {
      && tally.prior == (if nmi || tally.hijacks > old(tally.hijacks) then NMI_VECTOR else IRQ_VECTOR)
      && tally.last == tally.prior + 1
    }

    method BreakTo()
      requires Running()
      modifies this`pc, this`masked, this`dma, this`dmaPage, this`poll, this`clock, this`tally,
               this`since, this`hadNmi, this`irqSince
      ensures Broke()
    {
      var _ := Read(pc);
      pc := (pc + 1) % 0x1_0000;
      EnterHandler(false);
    }

    /** Handlers whose cycles do not depend on control flow. */
    predicate Plain(a: Action) {
      a.Read? || a.Store? || a.Modify? || a.Register? || a.Push? || a.Pull? || a.Nop? || a.Jump?
    }

    method ExecutePlain(i: Instr, addr: Word)
      requires Running() && Plain(i.action)
      modifies this`pc, this`x, this`y, this`dma, this`dmaPage, this`poll, this`clock, this`tally
      ensures Ran(ActionTicks(i))
    {
      match i.action
      case Read =>
        var _ := Read(addr);
        AnyRegisters();
      case Store => Write(addr);
      case Modify =>
        if i.mode != ACC {
          Modify(addr);
        }
      case Register => AnyRegisters();
      case Push =>
        var _ := Read(pc);
        Write(0x100);
      case Pull => Pull();
      case Jump => pc := addr;
      case Nop =>
        if i.mode != IMP && i.mode != ACC {
          var _ := Read(addr);
        }
    }

    /** PLP, and RTI with its two further pulls: the mask changes after P is pulled. */
    method PullMask(i: Instr)
      requires Running() && (i.action.PullStatus? || i.action.ReturnInterrupt?)
      modifies this`pc, this`masked, this`dma, this`poll, this`clock, this`tally, this`irqSince
      ensures Done(ActionTicks(i), if i.action.ReturnInterrupt? then masked else old(masked))
      ensures if i.action.ReturnInterrupt? then clock.now >= irqSince + 2 else irqSince == old(irqSince)
    {
      Pull();
      if i.action.PullStatus? {
        masked := *;
        return;
      }
      var m: bool := *;
      SwitchMask(m);
      pc := ReadWord(0x100, 0x100);
    }

    /** `n` cycles whose last polls used mask `m`, which may since have changed. */
    twostate predicate Done(n: nat, m: bool)
      reads this
    {
      Clocked() && LatchesKnown(m) && Ticked(n)
    }

    /** Flags and control flow. */
    method ExecuteControl(i: Instr, addr: Word)
      requires Running() && !Plain(i.action) && !i.action.Branch? && !i.action.Break?
      modifies this`pc, this`masked, this`dma, this`dmaPage, this`poll, this`clock, this`tally, this`irqSince
      ensures Done(ActionTicks(i), if i.action.ReturnInterrupt? then masked else old(masked))
      ensures if i.action.ReturnInterrupt? then clock.now >= irqSince + 2 else irqSince == old(irqSince)
      ensures MaskFollows(i.action, old(masked), masked)
    {
      match i.action
      case ClearMask => masked := false;
      case SetMask => masked := true;
      case PullStatus => PullMask(i);
      case ReturnInterrupt => PullMask(i);
      case Call => CallTo(addr % 0x100);
      case Return => ReturnFromCall();
    }

    /** What the polls of an instruction other than BRK, begun at `irqSince`, leave. */
    twostate predicate Settled(i: Instr, n: nat, extra: nat)
      reads this
    {
      && Clocked() && NmiKnown(env, poll, clock.now, since, hadNmi) && Ticked(n)
      && clock.now >= 2 && (extra == 1 ==> clock.now >= 3)
      && IrqPolled(env, old(irqSince), clock.now, extra,
                   if i.action.ReturnInterrupt? then masked else old(masked), poll.irqDue)
    }

    /** Runs a handler; `extra` is what a taken branch adds. */
    method Execute(i: Instr, addr: Word) returns (extra: nat)
      requires Running() && (i.action.Branch? ==> clock.now >= irqSince + 2)
      requires clock.now + ActionTicks(i) >= irqSince + 2
      modifies this`pc, this`x, this`y, this`masked, this`dma, this`dmaPage,
               this`poll, this`clock, this`tally, this`since, this`hadNmi, this`irqSince
      ensures extra <= 2 && (extra > 0 ==> i.action.Branch?)
      ensures if i.action.Break? then Broke()
              else Settled(i, ActionTicks(i) + extra, extra) && since == old(since) && hadNmi == old(hadNmi)
      ensures MaskFollows(i.action, old(masked), masked)
      ensures i.action.Branch? ==> BranchLands(extra, old(pc), pc)
    {
      extra := 0;
      if i.action.Break? {
        BreakTo();
      } else if i.action.Branch? {
        extra := BranchTo(addr);
      } else {
        ExecuteStraight(i, addr);
      }
    }

    /** Everything but branches and BRK. */
    method ExecuteStraight(i: Instr, addr: Word)
      requires Running() && !i.action.Branch? && !i.action.Break?
      requires clock.now + ActionTicks(i) >= irqSince + 2
      modifies this`pc, this`x, this`y, this`masked, this`dma, this`dmaPage,
               this`poll, this`clock, this`tally, this`irqSince
      ensures Settled(i, ActionTicks(i), 0)
      ensures MaskFollows(i.action, old(masked), masked)
    {
      if Plain(i.action) {
        ExecutePlain(i, addr);
      } else {
        ExecuteControl(i, addr);
      }
      IrqLatches(env, poll, clock.now, irqSince, if i.action.ReturnInterrupt? then masked else old(masked));
    }

    // ---------- one step ----------

    /** From here on the latches are known in terms of the lines. */
    method Rebase()
      requires Valid() && LinesKnown()
      modifies this`offset, this`since, this`hadNmi, this`irqSince
      ensures Running() && since == irqSince == clock.now && hadNmi == poll.nmiPending
    {
      offset := clock.cycles + clock.instr - clock.now;
      since, hadNmi, irqSince := clock.now, poll.nmiPending, clock.now;
    }

    /** How long DMA keeps the first cycle of an interrupt entry waiting. The instruction counter is
        not restarted, so the clock is ahead by what the last instruction left there. */
    ghost function EntryWait(): nat
      requires Valid()
      reads this
    {
      WindowTakesTime(env, horizon, dma, dmaPage, clock.cycles + clock.instr, clock.now);
      ProcessPending(env, horizon, dma, dmaPage, clock.cycles + clock.instr, clock.now).now - clock.now
    }

    method FirstDummy()
      requires Running()
      modifies this`dma, this`poll, this`clock, this`tally
      ensures Ran(1) && clock.now == old(clock.now + EntryWait()) + 1
      ensures Calm(env, old(clock.now), old(EntryWait()) + 1) ==> !dma.needHalt
    {
      CalmWindowEnds(env, horizon, dma, dmaPage, clock.cycles + clock.instr, clock.now);
      var _ := BusRead(pc);
    }

    /** The two idle cycles that open an interrupt entry. */
    method EntryDummies()
      requires Running()
      modifies this`dma, this`poll, this`clock, this`tally
      ensures Ran(2) && clock.now >= old(clock.now + EntryWait()) + 2
      ensures Calm(env, old(clock.now), old(EntryWait()) + 2) ==>
                clock.now == old(clock.now + EntryWait()) + 2 && !dma.needHalt
    {
      FirstDummy();
      var _ := Read(pc);
    }

    /** The seven cycles of an interrupt entry, after the latch that caused it was cleared. After an
        odd count a lone sample that is waiting takes three cycles where it should take four, and
        four where it should take three. */
    method ServiceVector(nmi: bool)
      requires Valid() && LinesKnown()
      modifies this`pc, this`masked, this`dma, this`dmaPage, this`poll, this`clock, this`tally,
               this`offset, this`since, this`hadNmi, this`irqSince
      ensures clock.instr == old(clock.instr) + 7 && Uncounted() == old(Uncounted())
      ensures offset == old(clock.instr) - old(Uncounted())
      ensures clock.now >= old(clock.now + EntryWait()) + 7
      ensures Calm(env, old(clock.now), old(EntryWait()) + 7) ==> clock.now == old(clock.now + EntryWait()) + 7
      ensures old(dma) == SAMPLE && QuietFor(env, old(clock.now), 4) && Calm(env, old(clock.now), 11) ==>
                clock.now == old(clock.now) + 7 + if old(clock.instr) % 2 == 0 then SampleLength(old(clock.cycles))
                                                  else 7 - SampleLength(old(clock.cycles))
      ensures Calm(env, old(clock.now), old(EntryWait()) + 7) ==>
                tally.hijacks - old(tally.hijacks)
                == if !nmi && NmiBy(env, old(poll.nmiPending), old(clock.now), old(clock.now + EntryWait()) + 4)
                   then 1 else 0
      ensures MasterSkew() == old(MasterSkew()) && NmiDebt() == old(NmiDebt())
      ensures tally.services == old(tally.services)
      ensures tally.hijacks <= old(tally.hijacks) + 1 && (nmi ==> tally.hijacks == old(tally.hijacks))
      ensures NothingDue() && LinesKnown() && VectorRead(nmi)
    {
      LoneSampleWaits(env, horizon, dma, dmaPage, clock);
      TakeVector(nmi);
    }

    method TakeVector(nmi: bool)
      requires Valid() && LinesKnown()
      modifies this`pc, this`masked, this`dma, this`dmaPage, this`poll, this`clock, this`tally,
               this`offset, this`since, this`hadNmi, this`irqSince
      ensures clock.instr == old(clock.instr) + 7 && Uncounted() == old(Uncounted())
      ensures offset == old(clock.instr) - old(Uncounted())
      ensures clock.now >= old(clock.now + EntryWait()) + 7
      ensures Calm(env, old(clock.now), old(EntryWait()) + 7) ==> clock.now == old(clock.now + EntryWait()) + 7
      ensures Calm(env, old(clock.now), old(EntryWait()) + 7) ==>
                tally.hijacks - old(tally.hijacks)
                == if !nmi && NmiBy(env, old(poll.nmiPending), old(clock.now), old(clock.now + EntryWait()) + 4)
                   then 1 else 0
      ensures MasterSkew() == old(MasterSkew()) && NmiDebt() == old(NmiDebt())
      ensures tally.services == old(tally.services)
      ensures tally.hijacks <= old(tally.hijacks) + 1 && (nmi ==> tally.hijacks == old(tally.hijacks))
      ensures NothingDue() && LinesKnown() && VectorRead(nmi)
    {
      Rebase();
      EnterVector(nmi);
      clock := clock.(cycles := clock.cycles + 7);
    }

    method EnterVector(nmi: bool)
      requires Running()
      modifies this`pc, this`masked, this`dma, this`dmaPage, this`poll, this`clock, this`tally,
               this`since, this`hadNmi, this`irqSince
      ensures clock.instr == old(clock.instr) + 7 && Uncounted() == old(Uncounted()) + 7
      ensures clock.now >= old(clock.now + EntryWait()) + 7
      ensures Calm(env, old(clock.now), old(EntryWait()) + 7) ==> clock.now == old(clock.now + EntryWait()) + 7
      ensures Calm(env, old(clock.now), old(EntryWait()) + 7) ==>
                tally.hijacks - old(tally.hijacks)
                == if !nmi && NmiBy(env, old(hadNmi), old(since), old(clock.now + EntryWait()) + 4) then 1 else 0
      ensures MasterSkew() == old(MasterSkew()) && NmiDebt() == old(NmiDebt())
      ensures tally.services == old(tally.services)
      ensures tally.hijacks <= old(tally.hijacks) + 1 && (nmi ==> tally.hijacks == old(tally.hijacks))
      ensures NothingDue() && LinesKnown() && VectorRead(nmi)
    {
      EntryDummies();
      EnterHandler(nmi);
    }

    /** Pushes, the hijack check between them, and the vector. */
    method EnterHandler(nmi: bool)
      requires Running()
      modifies this`pc, this`masked, this`dma, this`dmaPage, this`poll, this`clock, this`tally,
               this`since, this`hadNmi, this`irqSince
      ensures clock.instr == old(clock.instr) + 5 && Uncounted() == old(Uncounted()) + 5
      ensures clock.now >= old(clock.now) + 5 && Prompt(5)
      ensures MasterSkew() == old(MasterSkew()) && NmiDebt() == old(NmiDebt())
      ensures tally.services == old(tally.services)
      ensures tally.hijacks <= old(tally.hijacks) + 1 && (nmi ==> tally.hijacks == old(tally.hijacks))
      ensures Running() && NothingDue() && VectorRead(nmi)
      ensures tally.hijacks - old(tally.hijacks)
              == if !nmi && NmiBy(env, old(hadNmi), old(since), old(clock.now) + 2) then 1 else 0
    {
      PushWord();
      NmiLatches(env, poll, clock.now, since, hadNmi);
      var taken := nmi;
      if !nmi {
        taken := Hijack();
      }
      LoadVector(if taken then NMI_VECTOR else IRQ_VECTOR);
      ForgetNmi();
    }

    /** The byte at the program counter, after any window that waited. */
    method FetchOpcode() returns (op: Byte)
      requires Running()
      modifies this`pc, this`dma, this`poll, this`clock, this`tally
      ensures Ran(1) && pc == Ahead(old(pc), 1)
      ensures op == env(ProcessPending(env, horizon, old(dma), dmaPage, old(clock.now) + offset,
                                       old(clock.now)).now).data
    {
      op := BusRead(pc);
      pc := (pc + 1) % 0x1_0000;
    }

    /** What an instruction that began at tick `start` leaves for the next step. */
    ghost predicate Finished(i: Instr, extra: nat, start: nat, pending: bool, m: bool)
      reads this
    {
      && LinesKnown()
      && if i.action.Break? then NothingDue()
         else
           && clock.now >= start + 2 + extra
           && poll.nmiPending == poll.nmiPollPrev == NmiBy(env, pending, start, clock.now)
           && poll.nmiDue == NmiBy(env, pending, start, clock.now - 1)
           && IrqPolled(env, start, clock.now, extra, if i.action.ReturnInterrupt? then masked else m, poll.irqDue)
    }

    /** Operand, dummies and handler, after the fetch. The ticks issued are the ones the table charges. */
    method RunDecoded(op: Byte, i: Instr) returns (extra: nat, crossed: bool)
      requires Running() && Sound(op, i) && clock.instr == 1 && irqSince == since && clock.now > since
      modifies this`pc, this`x, this`y, this`masked, this`dma, this`dmaPage, this`poll, this`clock, this`tally,
               this`since, this`hadNmi, this`irqSince
      ensures clock.instr == i.cycles + extra + if i.pageAdd && crossed then 1 else 0
      ensures extra <= 2 && (extra > 0 ==> i.action.Branch?)
      ensures Uncounted() == old(Uncounted()) + clock.instr - 1
      ensures MasterSkew() == old(MasterSkew()) && NmiDebt() == old(NmiDebt()) && tally.services == old(tally.services)
      ensures Finished(i, extra, old(since), old(hadNmi), old(masked))
      ensures MaskFollows(i.action, old(masked), masked)
      ensures i.action.Break? ==> VectorRead(false)
      ensures i.action.Branch? ==> BranchLands(extra, Ahead(old(pc), 1), pc)
    {
      var addr: Word;
      addr, crossed := Operand(i);
      CrossingIsTimed(i, crossed);
      extra := Execute(i, addr);
      if !i.action.Break? {
        NmiLatches(env, poll, clock.now, since, hadNmi);
      }
    }

    /** One instruction and the count the table charges for it. Ticks issued and count charged are
        asserted equal: the core's cycle-mismatch panic cannot happen. DMA inside runs on a clock
        in step with the ticks. */
    method RunInstruction() returns (e: Event)
      requires Valid() && LinesKnown()
      modifies this`pc, this`x, this`y, this`masked, this`dma, this`dmaPage, this`poll, this`clock, this`tally,
               this`offset, this`since, this`hadNmi, this`irqSince
      ensures e.Executed?
      ensures e.op == env(ProcessPending(env, horizon, old(dma), old(dmaPage), old(clock.cycles),
                                         old(clock.now)).now).data
      ensures var i := opcodes[e.op];
              && e.extra <= 2 && (e.extra > 0 ==> i.action.Branch?)
              && clock.instr == i.cycles + e.extra + (if i.pageAdd && e.crossed then 1 else 0)
              && Finished(i, e.extra, old(clock.now), old(poll.nmiPending), old(masked))
              && MaskFollows(i.action, old(masked), masked)
              && (i.action.Branch? ==> BranchLands(e.extra, Ahead(old(pc), 2), pc))
              && (i.action.Break? ==> VectorRead(false))
      ensures offset == -old(Uncounted()) && Uncounted() == old(Uncounted())
      ensures MasterSkew() == old(MasterSkew()) && NmiDebt() == old(NmiDebt()) && tally.services == old(tally.services)
    {
      var op := StartInstruction();
      var extra, crossed := RunFetched(op, opcodes[op]);
      e := Executed(op, extra, crossed);
    }

    /** The rest of an instruction, and what it is charged. */
    method RunFetched(op: Byte, i: Instr) returns (extra: nat, crossed: bool)
      requires Running() && Sound(op, i) && clock.instr == 1 && irqSince == since && clock.now > since
      modifies this`pc, this`x, this`y, this`masked, this`dma, this`dmaPage, this`poll, this`clock, this`tally,
               this`since, this`hadNmi, this`irqSince
      ensures clock.instr == i.cycles + extra + if i.pageAdd && crossed then 1 else 0
      ensures extra <= 2 && (extra > 0 ==> i.action.Branch?)
      ensures Uncounted() == old(Uncounted()) - 1
      ensures MasterSkew() == old(MasterSkew()) && NmiDebt() == old(NmiDebt()) && tally.services == old(tally.services)
      ensures Finished(i, extra, old(since), old(hadNmi), old(masked))
      ensures MaskFollows(i.action, old(masked), masked)
      ensures i.action.Break? ==> VectorRead(false)
      ensures i.action.Branch? ==> BranchLands(extra, Ahead(old(pc), 1), pc)
    {
      extra, crossed := RunDecoded(op, i);
      var cycles := i.cycles + extra;
      if i.pageAdd && crossed {
        cycles := cycles + 1;
      }
      assert clock.instr == cycles;
      clock := clock.(cycles := clock.cycles + cycles);
    }

    /** The count restarts, and the opcode comes in. */
    method StartInstruction() returns (op: Byte)
      requires Valid() && LinesKnown()
      modifies this`pc, this`dma, this`poll, this`clock, this`tally,
               this`offset, this`since, this`hadNmi, this`irqSince
      ensures Running() && clock.instr == 1 && offset == -old(Uncounted()) && Uncounted() == old(Uncounted()) + 1
      ensures pc == Ahead(old(pc), 1)
      ensures MasterSkew() == old(MasterSkew()) && NmiDebt() == old(NmiDebt()) && tally.services == old(tally.services)
      ensures tally.hijacks == old(tally.hijacks)
      ensures since == irqSince == old(clock.now) && clock.now > since && hadNmi == old(poll.nmiPending)
      ensures op == env(ProcessPending(env, horizon, old(dma), dmaPage, old(clock.cycles), old(clock.now)).now).data
    {
      clock := clock.(instr := 0);
      Rebase();
      op := FetchOpcode();
    }

    ghost function Now(): Snapshot
      reads this
    {
      Snapshot(clock, poll, masked, halted, tally)
    }

    /** An NMI that is due is served, whatever it finds. */
    method TakeNmi()
      requires Valid() && PollSound() && poll.nmiDue
      modifies this
      ensures Valid() && PollSound() && !halted && NothingDue() && VectorRead(true)
      ensures Uncounted() == old(Uncounted()) && MasterSkew() == old(MasterSkew()) && NmiDebt() == old(NmiDebt())
      ensures tally.services == old(tally.services) + 1
    {
      halted := false;
      poll := poll.(nmiDue := false);
      poll := poll.(nmiPending := false);
      tally := tally.(services := tally.services + 1);
      ServiceVector(true);
    }

    method TakeIrq()
      requires Valid() && PollSound() && !poll.nmiDue && poll.irqDue
      modifies this
      ensures Valid() && PollSound() && !halted && NothingDue() && VectorRead(false)
      ensures Uncounted() == old(Uncounted()) && MasterSkew() == old(MasterSkew()) && NmiDebt() == old(NmiDebt())
      ensures tally.services == old(tally.services)
    {
      halted := false;
      poll := poll.(irqDue := false);
      ServiceVector(false);
    }

    /** One instruction and what its last polls leave for the next step. */
    method Instruct() returns (e: Event)
      requires Valid() && PollSound()
      modifies this`pc, this`x, this`y, this`masked, this`dma, this`dmaPage, this`poll, this`clock, this`tally,
               this`offset, this`since, this`hadNmi, this`irqSince
      ensures e.Executed? && PollSound()
      ensures Accounts(old(Now()), e, Now())
      ensures if e.op == BRK_OPCODE then Entered(old(Now()), e, Now()) else Polled(env, old(Now()), e, Now())
    {
      e := RunInstruction();
      assert Sound(e.op, opcodes[e.op]);
    }

    /** One instruction or one interrupt entry, chosen by the latches the last polls left. */
    method Step() returns (e: Event)
      requires Valid() && PollSound()
      modifies this
      ensures Valid() && PollSound()
      ensures Stepped(env, old(Now()), e, Now())
    {
      if halted && poll.irqLine && masked && !poll.nmiPending {
        halted := false;
      }
      if poll.nmiDue {
        TakeNmi();
        e := NmiEntry;
      } else if poll.irqDue {
        TakeIrq();
        e := IrqEntry;
      } else if halted {
        e := Stopped;
      } else {
        e := Instruct();
      }
    }

    /** The host's edge trigger between steps. */
    method TriggerNmi()
      modifies this`poll, this`tally
      ensures old(PollSound()) ==> PollSound()
      ensures Now() == Triggered(old(Now()), true)
    {
      if !poll.nmiPending {
        tally := tally.(rises := tally.rises + 1);
      }
      poll := poll.(nmiPending := true);
    }

    /** One step after an optional trigger. */
    method TriggerAndStep(trigger: bool) returns (e: Event)
      requires Valid() && PollSound()
      modifies this
      ensures Valid() && PollSound()
      ensures Stepped(env, Triggered(old(Now()), trigger), e, Now())
      ensures Uncounted() == old(Uncounted()) && MasterSkew() == old(MasterSkew()) && NmiDebt() == old(NmiDebt())
      ensures tally.services == old(tally.services) + if e.NmiEntry? then 1 else 0
    {
      if trigger {
        TriggerNmi();
      }
      e := Step();
    }

    /** Any number of steps, with NMIs the host triggers in between, and the states they pass
        through. Cycles and the master clock account for every bus tick; every NMI is serviced
        once, hijacks once or is still pending. */
    method Run(triggers: seq<bool>) returns (events: seq<Event>, ghost path: seq<Snapshot>)
      requires Valid() && PollSound()
      modifies this
      ensures Valid() && PollSound()
      ensures |events| == |triggers| && Path(env, path, triggers, events)
      ensures path[0] == old(Now()) && path[|events|] == Now()
      ensures clock.cycles - old(clock.cycles) == clock.now - old(clock.now)
      ensures clock.master - old(clock.master)
              == 12 * (clock.now - old(clock.now)) - 2 * (tally.oamWrites - old(tally.oamWrites))
      ensures tally.rises - old(tally.rises) + (if old(poll.nmiPending) then 1 else 0)
              == tally.services - old(tally.services) + tally.hijacks - old(tally.hijacks)
                 + if poll.nmiPending then 1 else 0
      ensures tally.services - old(tally.services) == Services(events)
    {
      events, path := [], [Now()];
      for k := 0 to |triggers|
        invariant Valid() && PollSound() && |events| == k && |path| == k + 1
        invariant path[0] == old(Now()) && path[k] == Now()
        invariant Path(env, path, triggers[..k], events)
        invariant Uncounted() == old(Uncounted()) && MasterSkew() == old(MasterSkew()) && NmiDebt() == old(NmiDebt())
        invariant tally.services == old(tally.services) + Services(events)
      {
        var e := TriggerAndStep(triggers[k]);
        PathGoesOn(env, path, triggers[..k], events, triggers[k], e, Now());
        assert triggers[..k] + [triggers[k]] == triggers[..k + 1];
        assert (events + [e])[..k] == events;
        events, path := events + [e], path + [Now()];
      }
      assert triggers[..|triggers|] == triggers;
    }
  }

  // ---------- what a run passes through ----------

  datatype Snapshot = Snapshot(clock: Clock, poll: Poll, masked: bool, halted: bool, tally: Tally)

  /** A state with an NMI from the host, if there is one. */
  function Triggered(s: Snapshot, trigger: bool): Snapshot {
    if trigger then
      s.(poll := s.poll.(nmiPending := true),
         tally := s.tally.(rises := s.tally.rises + if s.poll.nmiPending then 0 else 1))
    else s
  }

  function Debt(s: Snapshot): int {
    s.tally.rises - s.tally.services - s.tally.hijacks - if s.poll.nmiPending then 1 else 0
  }

  /** Cycles and master clock grow by the ticks, and no NMI gets lost or served twice. */
  predicate Accounts(s: Snapshot, e: Event, s': Snapshot) {
    && s'.clock.now - s.clock.now == s'.clock.cycles - s.clock.cycles
    && s'.clock.master - s.clock.master
       == 12 * (s'.clock.now - s.clock.now) - 2 * (s'.tally.oamWrites - s.tally.oamWrites)
    && Debt(s') == Debt(s)
    && s'.tally.services == s.tally.services + (if e.NmiEntry? then 1 else 0)
  }

  /** After an entry nothing is due, and the vector read last is that of NMI for an NMI and for a
      hijacked BRK or IRQ, else that of IRQ and BRK. */
  predicate Entered(s: Snapshot, e: Event, s': Snapshot) {
    && s'.masked && !s'.poll.nmiDue && !s'.poll.irqDue
    && s'.tally.prior == (if e.NmiEntry? || s'.tally.hijacks > s.tally.hijacks then NMI_VECTOR else IRQ_VECTOR)
    && s'.tally.last == s'.tally.prior + 1
  }

  /** The latches after an instruction other than BRK: an NMI is due when it was pending before or
      its edge came before the last tick, an IRQ when its level was high in the tick before the
      last under the mask the instruction began with; RTI already polls under the mask it pulls. */
  predicate Polled(env: Env, s: Snapshot, e: Event, s': Snapshot)
    requires e.Executed?
  {
    var n := s'.clock.now;
    && n >= s.clock.now + 2 + e.extra
    && s'.poll.nmiPending == NmiBy(env, s.poll.nmiPending, s.clock.now, n)
    && s'.poll.nmiDue == NmiBy(env, s.poll.nmiPending, s.clock.now, n - 1)
    && IrqPolled(env, s.clock.now, n, e.extra, if e.op == RTI_OPCODE then s'.masked else s.masked, s'.poll.irqDue)
    && (e.op == CLI_OPCODE ==> !s'.masked) && (e.op == SEI_OPCODE ==> s'.masked)
  }

  /** One step. */
  predicate Stepped(env: Env, s: Snapshot, e: Event, s': Snapshot) {
    && (e.NmiEntry? <==> s.poll.nmiDue) && (e.IrqEntry? <==> !s.poll.nmiDue && s.poll.irqDue)
    && (e.Stopped? || s'.halted ==> s.halted)
    && Accounts(s, e, s')
    && (IsEntry(e) ==> Entered(s, e, s'))
    && (e.Executed? && e.op != BRK_OPCODE ==> Polled(env, s, e, s'))
  }

  ghost predicate Path(env: Env, path: seq<Snapshot>, triggers: seq<bool>, events: seq<Event>) {
    && |triggers| == |events| && |path| == |events| + 1
    && forall k | 0 <= k < |events| :: Stepped(env, Triggered(path[k], triggers[k]), events[k], path[k + 1])
  }

  lemma PathGoesOn(env: Env, path: seq<Snapshot>, triggers: seq<bool>, events: seq<Event>,
                   trigger: bool, e: Event, s: Snapshot)
    requires Path(env, path, triggers, events)
    requires Stepped(env, Triggered(path[|events|], trigger), e, s)
    ensures Path(env, path + [s], triggers + [trigger], events + [e])
  {
    var path', triggers', events' := path + [s], triggers + [trigger], events + [e];
    forall k | 0 <= k < |events'|
      ensures Stepped(env, Triggered(path'[k], triggers'[k]), events'[k], path'[k + 1])
    {
      if k < |events| {
        assert Stepped(env, Triggered(path[k], triggers[k]), events[k], path[k + 1]);
      }
    }
  }

  /** The first instruction of a handler runs before anything else is served. */
  lemma HandlerStarts(env: Env, path: seq<Snapshot>, triggers: seq<bool>, events: seq<Event>, k: nat)
    requires Path(env, path, triggers, events) && k + 1 < |events|
    requires IsEntry(events[k]) && !path[k + 1].halted
    ensures events[k + 1].Executed?
  {
    assert Stepped(env, Triggered(path[k], triggers[k]), events[k], path[k + 1]);
    assert Stepped(env, Triggered(path[k + 1], triggers[k + 1]), events[k + 1], path[k + 2]);
  }

  /** What follows an instruction, in terms of the interrupt lines. An NMI entry follows exactly when
      an NMI was pending at its start or rose before its last tick. Failing that an IRQ entry
      follows exactly when the line was high in the tick before its last under the mask it began
      with, so that a CLI is followed by one more instruction. Set apart are BRK, RTI and branches
      that take one extra cycle. */
  lemma NextEntry(env: Env, path: seq<Snapshot>, triggers: seq<bool>, events: seq<Event>, k: nat)
    requires Path(env, path, triggers, events) && k + 1 < |events| && events[k].Executed?
    requires events[k].op != BRK_OPCODE && events[k].op != RTI_OPCODE && events[k].extra != 1
    ensures var from, n := path[k].clock.now, path[k + 1].clock.now;
            var nmi := NmiBy(env, path[k].poll.nmiPending || triggers[k], from, n - 1);
            && n >= from + 2
            && (events[k + 1].NmiEntry? <==> nmi)
            && (events[k + 1].IrqEntry? <==> !nmi && IrqLine(env, n - 2) && !path[k].masked)
  {
    assert Stepped(env, Triggered(path[k], triggers[k]), events[k], path[k + 1]);
    assert Stepped(env, Triggered(path[k + 1], triggers[k + 1]), events[k + 1], path[k + 2]);
  }

  /** An IRQ line that is high all through an unmasked instruction is served when it ends, after RTI
      and after any branch as well. */
  lemma HeldLineIsServed(env: Env, path: seq<Snapshot>, triggers: seq<bool>, events: seq<Event>, k: nat)
    requires Path(env, path, triggers, events) && k + 1 < |events|
    requires events[k].Executed? && events[k].op != BRK_OPCODE && !path[k].masked && !path[k + 1].masked
    requires forall t: nat | path[k].clock.now <= t < path[k + 1].clock.now :: IrqLine(env, t)
    ensures events[k + 1].NmiEntry? || events[k + 1].IrqEntry?
  {
    assert Stepped(env, Triggered(path[k], triggers[k]), events[k], path[k + 1]);
    assert Stepped(env, Triggered(path[k + 1], triggers[k + 1]), events[k + 1], path[k + 2]);
  }

  lemma LoneSampleWaits(env: Env, horizon: nat, l: Latches, page: Byte, c: Clock)
    requires QuietFrom(env, horizon)
    ensures l == SAMPLE && QuietFor(env, c.now, 4) ==>
              var wait := if c.instr % 2 == 0 then SampleLength(c.cycles) else 7 - SampleLength(c.cycles);
              && ProcessPending(env, horizon, l, page, c.cycles + c.instr, c.now).now == c.now + wait
              && (Calm(env, c.now, 11) ==> Calm(env, c.now, wait + 7))
  {
    if l == SAMPLE && QuietFor(env, c.now, 4) {
      StaleParityMissizesSample(env, horizon, page, c.cycles, c.instr, c.now);
    }
  }

  function Services(events: seq<Event>): nat {
    if events == [] then 0
    else Services(events[..|events| - 1]) + if events[|events| - 1].NmiEntry? then 1 else 0
  }
}
