/** What a DMA window delivers and how long it takes. */
module DmaProofs {
  import opened Basics
  import opened Dma

  // ---------- OAM transfers are complete and in order ----------

  /** After m bytes, and perhaps the read of one more, the log holds exactly the reads and writes due
      so far: reads in address order, each followed at once by the write of the byte it fetched. */
  ghost predicate Transferred(w: Window, m: nat, half: bool) {
    && m + One(half) <= 0x100 && w.counter == 2 * m + One(half)
    && Reads(w.log) == SourceAddresses(w.page, m + One(half))
    && |Writes(w.log)| == m
    && w.low == (if m + One(half) == 0x100 then 0 else m + One(half))
    && ReadThenWrite(w.log)
    && if half then w.log != [] && w.log[|w.log| - 1] == SpriteRead(WordOf(m, w.page), w.value)
       else w.log == [] || !w.log[|w.log| - 1].SpriteRead?
  }

  function SourceAddresses(page: Byte, n: nat): seq<Word>
    requires n <= 0x100
  {
    seq(n, i requires 0 <= i < n => WordOf(i, page))
  }

  lemma OneMoreAddress(page: Byte, n: nat)
    requires n < 0x100
    ensures SourceAddresses(page, n + 1) == SourceAddresses(page, n) + [WordOf(n, page)]
  {
  }

  /** Source addresses read for the OAM transfer, in order. */
  function Reads(log: seq<Op>): seq<Word> {
    if log == [] then []
    else
      var op := log[|log| - 1];
      Reads(log[..|log| - 1]) + if op.SpriteRead? then [op.addr] else []
  }

  /** Bytes stored to $2004, in order. */
  function Writes(log: seq<Op>): seq<Byte> {
    if log == [] then []
    else
      var op := log[|log| - 1];
      Writes(log[..|log| - 1]) + if op.SpriteWrite? then [op.value] else []
  }

  /** Every source read is followed on the very next cycle by the write of that byte, and there
      are no other writes. */
  ghost predicate ReadThenWrite(log: seq<Op>) {
    && (log != [] ==> !log[0].SpriteWrite?)
    && forall i, j | 0 <= i && j == i + 1 && j < |log| ::
         if log[i].SpriteRead? then log[j] == SpriteWrite(log[i].value) else !log[j].SpriteWrite?
  }

  lemma AppendOp(log: seq<Op>, op: Op)
    ensures Reads(log + [op]) == Reads(log) + if op.SpriteRead? then [op.addr] else []
    ensures Writes(log + [op]) == Writes(log) + if op.SpriteWrite? then [op.value] else []
    ensures ReadThenWrite(log)
            && (log != [] && log[|log| - 1].SpriteRead? ==> op == SpriteWrite(log[|log| - 1].value))
            && (op.SpriteWrite? ==> log != [] && log[|log| - 1].SpriteRead?)
            ==> ReadThenWrite(log + [op])
  {
    assert (log + [op])[..|log|] == log;
  }

  lemma ReadTransfers(w: Window, w': Window, v: Byte, m: nat)
    requires Transferred(w, m, false) && m < 0x100
    requires w'.log == w.log + [SpriteRead(WordOf(w.low, w.page), v)] && w'.page == w.page
    requires w'.low == (w.low + 1) % 0x100 && w'.counter == w.counter + 1 && w'.value == v
    ensures Transferred(w', m, true)
  {
    AppendOp(w.log, SpriteRead(WordOf(w.low, w.page), v));
    OneMoreAddress(w.page, m);
  }

  lemma WriteTransfers(w: Window, w': Window, m: nat)
    requires Transferred(w, m, true)
    requires w'.log == w.log + [SpriteWrite(w.value)] && w'.page == w.page
    requires w'.low == w.low && w'.counter == w.counter + 1
    ensures Transferred(w', m + 1, false)
  {
    AppendOp(w.log, SpriteWrite(w.value));
  }

  lemma OtherTransfers(w: Window, w': Window, op: Op, m: nat)
    requires Transferred(w, m, false) && (op.DummyRead? || op.DmcRead?)
    requires w'.log == w.log + [op] && w'.page == w.page && w'.low == w.low && w'.counter == w.counter
    ensures Transferred(w', m, false)
  {
    AppendOp(w.log, op);
  }

  /** What a cycle does for the transfer, by the operation it logs. */
  lemma CycleOp(env: Env, w: Window) returns (op: Op)
    requires InStep(w) && Active(w)
    ensures var w' := Cycle(env, w);
            && w'.log == w.log + [op] && w'.page == w.page
            && match op
               case SpriteRead(a, v) =>
                 w.l.sprite && w.counter % 2 == 0 && a == WordOf(w.low, w.page) && w'.value == v
                 && w'.low == (w.low + 1) % 0x100 && w'.counter == w.counter + 1
               case SpriteWrite(v) =>
                 w.counter % 2 == 1 && v == w.value && w'.low == w.low && w'.counter == w.counter + 1
               case _ => w.counter % 2 == 0 && w'.low == w.low && w'.counter == w.counter
  {
    op := Cycle(env, w).log[|w.log|];
  }

  lemma CycleTransfers(env: Env, w: Window, m: nat, half: bool) returns (m': nat, half': bool)
    requires InStep(w) && Active(w) && Transferred(w, m, half)
    ensures Transferred(Cycle(env, w), m', half')
    ensures !w.l.sprite ==> m' == m && half' == half
  {
    var w' := Cycle(env, w);
    var op := CycleOp(env, w);
    match op
    case SpriteRead(_, v) =>
      ReadTransfers(w, w', v, m);
      m', half' := m, true;
    case SpriteWrite(_) =>
      WriteTransfers(w, w', m);
      m', half' := m + 1, false;
    case _ =>
      OtherTransfers(w, w', op, m);
      m', half' := m, false;
  }

  /** The transfer latch falls exactly when the last byte is written. */
  lemma CycleKeepsTransfer(env: Env, w: Window)
    requires InStep(w)
    ensures var w' := Cycle(env, w);
            w'.page == w.page && (w.l.sprite && !w'.l.sprite ==> w'.counter == BYTES) && (!w.l.sprite ==> !w'.l.sprite)
  {
  }

  lemma DrainOnce(env: Env, horizon: nat, w: Window)
    requires QuietFrom(env, horizon) && InStep(w) && Active(w)
    ensures InStep(Cycle(env, w)) && Drain(env, horizon, w) == Drain(env, horizon, Cycle(env, w))
    ensures Cycle(env, w).now == w.now + 1
  {
  }

  /** The loop's termination measure falls on every cycle. */
  lemma WorkFalls(env: Env, horizon: nat, w: Window)
    requires QuietFrom(env, horizon) && InStep(w) && Active(w)
    ensures var w' := Cycle(env, w);
            && InStep(w') && w'.now == w.now + 1
            && (w.now >= horizon ==> Work(w') < Work(w))
  {
  }

  lemma {:induction false} DrainTransfers(env: Env, horizon: nat, w: Window, m: nat, half: bool)
    requires QuietFrom(env, horizon) && InStep(w) && Transferred(w, m, half)
    requires w.l.sprite || (m == 0x100 && !half)
    ensures var d := Drain(env, horizon, w); Transferred(d, 0x100, false) && !Active(d) && d.page == w.page
    decreases if w.now < horizon then horizon - w.now else 0, Work(w)
  {
    if Active(w) {
      var m', half' := CycleTransfers(env, w, m, half);
      DrainOnce(env, horizon, w);
      WorkFalls(env, horizon, w);
      CycleKeepsTransfer(env, w);
      DrainTransfers(env, horizon, Cycle(env, w), m', half');
    }
  }

  lemma HaltTransfers(env: Env, l: Latches, page: Byte, clock: nat, now: nat)
    ensures Transferred(Halt(env, Opening(l, page, clock, now)), 0, false)
  {
    HaltOpens(env, l, page, clock, now);
    AppendOp([], DummyRead);
  }

  /** The window after its halt cycle. */
  lemma HaltOpens(env: Env, l: Latches, page: Byte, clock: nat, now: nat)
    ensures Halt(env, Opening(l, page, clock, now))
            == Window(React(l.(needHalt := false), env(now).dmc), page, clock + 1, now + 1, 0, 0, 0, [DummyRead])
  {
  }

  /** Whatever the sound channel requests or aborts meanwhile, an OAM transfer reads the 256
      bytes of its page in order and stores each on the cycle after its read. */
  lemma OamTransferIsExact(env: Env, horizon: nat, l: Latches, page: Byte, clock: nat, now: nat)
    requires QuietFrom(env, horizon) && l.needHalt && l.sprite
    ensures var d := ProcessPending(env, horizon, l, page, clock, now);
            && !Active(d)
            && Reads(d.log) == seq(0x100, i requires 0 <= i < 0x100 => WordOf(i, page))
            && |Writes(d.log)| == 0x100
            && ReadThenWrite(d.log)
  {
    HaltTransfers(env, l, page, clock, now);
    DrainTransfers(env, horizon, Halt(env, Opening(l, page, clock, now)), 0, false);
  }

  // ---------- every read returns its own tick's byte ----------

  /** What a bus operation in tick t must be: a sample read uses the channel's address, and both
      kinds of read return the byte of that tick. */
  predicate OfTick(env: Env, op: Op, t: nat) {
    match op
    case DmcRead(addr, value) => addr == env(t).dmcAddr && value == env(t).data
    case SpriteRead(_, value) => value == env(t).data
    case _ => true
  }

  ghost predicate Logged(env: Env, w: Window, start: nat) {
    w.now == start + |w.log| && forall i | 0 <= i < |w.log| :: OfTick(env, w.log[i], start + i)
  }

  lemma CycleLogs(env: Env, w: Window, start: nat)
    requires Logged(env, w, start)
    ensures Logged(env, Cycle(env, w), start)
  {
    var w' := Cycle(env, w);
    assert w'.log == w.log + [w'.log[|w.log|]];
    assert OfTick(env, w'.log[|w.log|], w.now);
    forall i | 0 <= i < |w'.log| ensures OfTick(env, w'.log[i], start + i) {
      assert i < |w.log| ==> w'.log[i] == w.log[i];
    }
  }

  lemma {:induction false} DrainLogs(env: Env, horizon: nat, w: Window, start: nat)
    requires QuietFrom(env, horizon) && InStep(w) && Logged(env, w, start)
    ensures Logged(env, Drain(env, horizon, w), start)
    decreases if w.now < horizon then horizon - w.now else 0, Work(w)
  {
    if Active(w) {
      CycleLogs(env, w, start);
      DrainOnce(env, horizon, w);
      WorkFalls(env, horizon, w);
      DrainLogs(env, horizon, Cycle(env, w), start);
    }
  }

  /** The log of a window has one operation a tick, and every sample is read at the channel's own
      address in its tick; every read returns the byte of its tick. */
  lemma WindowLogs(env: Env, horizon: nat, l: Latches, page: Byte, clock: nat, now: nat)
    requires QuietFrom(env, horizon)
    ensures var d := ProcessPending(env, horizon, l, page, clock, now);
            d.now == now + |d.log| && forall i | 0 <= i < |d.log| :: OfTick(env, d.log[i], now + i)
  {
    if l.needHalt {
      HaltOpens(env, l, page, clock, now);
      DrainLogs(env, horizon, Halt(env, Opening(l, page, clock, now)), now);
    }
  }

  // ---------- every request is answered, cancelled or lost ----------

  function One(b: bool): nat {
    if b then 1 else 0
  }

  /** A request that arrives while a fetch is still running, or in the very cycle of its read,
      is swallowed: the read's completion clears the latch. */
  predicate Collides(env: Env, w: Window) {
    env(w.now).dmc.arm && (Process(w.l).dmc || InSampleSlot(w))
  }

  /** An abort takes effect on any cycle but the sample slot. */
  predicate Cancels(w: Window) {
    w.l.abort && w.l.dmc && !InSampleSlot(w)
  }

  datatype Ledger = Ledger(asked: nat, answered: nat, cancelled: nat, lost: nat)

  function Account(env: Env, w: Window, n: nat): Ledger
    decreases n
  {
    if n == 0 then Ledger(0, 0, 0, 0)
    else
      var rest := Account(env, Cycle(env, w), n - 1);
      Ledger(rest.asked + One(env(w.now).dmc.arm), rest.answered + One(InSampleSlot(w)),
             rest.cancelled + One(Cancels(w)), rest.lost + One(Collides(env, w)))
  }

  function Samples(log: seq<Op>): nat {
    if log == [] then 0 else Samples(log[..|log| - 1]) + One(log[|log| - 1].DmcRead?)
  }

  lemma CycleConserves(env: Env, w: Window)
    ensures var w' := Cycle(env, w);
            && One(env(w.now).dmc.arm) + One(w.l.dmc)
               == One(InSampleSlot(w)) + One(Cancels(w)) + One(Collides(env, w)) + One(w'.l.dmc)
            && Samples(w'.log) == Samples(w.log) + One(InSampleSlot(w))
  {
    var w' := Cycle(env, w);
    assert w'.log[..|w.log|] == w.log;
  }

  lemma AccountMore(env: Env, w: Window, w1: Window, n: nat)
    requires n > 0 && w1 == Cycle(env, w)
    ensures var a, rest := Account(env, w, n), Account(env, w1, n - 1);
            && a.asked == rest.asked + One(env(w.now).dmc.arm) && a.answered == rest.answered + One(InSampleSlot(w))
            && a.cancelled == rest.cancelled + One(Cancels(w)) && a.lost == rest.lost + One(Collides(env, w))
  {
  }

  lemma {:induction false} Conservation(env: Env, w: Window, n: nat)
    ensures var a := Account(env, w, n);
            var w' := Cycles(env, w, n);
            && a.asked + One(w.l.dmc) == a.answered + a.cancelled + a.lost + One(w'.l.dmc)
            && Samples(w'.log) == Samples(w.log) + a.answered
    decreases n
  {
    if n > 0 {
      var w1 := Cycle(env, w);
      CycleConserves(env, w);
      Conservation(env, w1, n - 1);
      assert Cycles(env, w, n) == Cycles(env, w1, n - 1);
      AccountMore(env, w, w1, n);
    }
  }

  lemma {:induction false} DrainIsCycles(env: Env, horizon: nat, w: Window)
    requires QuietFrom(env, horizon) && InStep(w)
    ensures var d := Drain(env, horizon, w);
            d.now >= w.now && d == Cycles(env, w, d.now - w.now) && !Active(d)
    decreases if w.now < horizon then horizon - w.now else 0, Work(w)
  {
    if Active(w) {
      DrainIsCycles(env, horizon, Cycle(env, w));
    }
  }

  /** A request in the halt cycle is swallowed when one is already waiting. */
  predicate HaltCollides(env: Env, l: Latches, now: nat) {
    env(now).dmc.arm && l.dmc
  }

  /** Over a whole window, halt cycle included, no request disappears unnoticed: each is answered by
      exactly one sample fetch, cancelled by an abort, or lost to a collision. */
  lemma EveryRequestIsAccounted(env: Env, horizon: nat, l: Latches, page: Byte, clock: nat, now: nat)
    requires QuietFrom(env, horizon) && l.needHalt
    ensures var w := Halt(env, Opening(l, page, clock, now));
            var d := ProcessPending(env, horizon, l, page, clock, now);
            d.now >= w.now &&
            var a := Account(env, w, d.now - w.now);
            && One(l.dmc) + One(env(now).dmc.arm) + a.asked
               == Samples(d.log) + a.cancelled + One(HaltCollides(env, l, now)) + a.lost
            && !d.l.dmc
  {
    var w := Halt(env, Opening(l, page, clock, now));
    HaltOpens(env, l, page, clock, now);
    NoSamplesYet();
    DrainIsCycles(env, horizon, w);
    Conservation(env, w, Drain(env, horizon, w).now - w.now);
  }

  lemma NoSamplesYet()
    ensures Samples([DummyRead]) == 0
  {
    assert [DummyRead][..0] == [];
  }

  /** A request in the very cycle of a sample read is answered by nobody and leaves stale halt
      and dummy latches behind. */
  lemma CollisionLosesRequest(env: Env, horizon: nat, page: Byte, clock: nat, now: nat)
    requires QuietFrom(env, horizon) && clock % 2 == 0
    requires env(now).dmc == QUIET && env(now + 1).dmc == QUIET && env(now + 2).dmc == ARM
    ensures var d := ProcessPending(env, horizon, SAMPLE, page, clock, now);
            d.now == now + 3 && Samples(d.log) == 1 && d.l == Latches(true, false, false, false, true)
  {
    var w := Halt(env, Opening(SAMPLE, page, clock, now));
    var w1 := Cycle(env, w);
    var w2 := Cycle(env, w1);
    CollisionCycles(env, page, clock, now);
    DrainOnce(env, horizon, w);
    DrainOnce(env, horizon, w1);
  }

  lemma CollisionCycles(env: Env, page: Byte, clock: nat, now: nat)
    requires clock % 2 == 0
    requires env(now).dmc == QUIET && env(now + 1).dmc == QUIET && env(now + 2).dmc == ARM
    ensures var w := Halt(env, Opening(SAMPLE, page, clock, now));
            var w1 := Cycle(env, w);
            var w2 := Cycle(env, w1);
            && Active(w) && Active(w1) && !Active(w2)
            && w2.now == now + 3 && Samples(w2.log) == 1 && w2.l == Latches(true, false, false, false, true)
  {
    var w := Halt(env, Opening(SAMPLE, page, clock, now));
    HaltOpens(env, SAMPLE, page, clock, now);
    NoSamplesYet();
    WaitingCycle(env, w);
    CollisionAtSlot(env, Cycle(env, w));
  }

  /** The cycle of a read that also brings a request. */
  lemma CollisionAtSlot(env: Env, w: Window)
    requires w.l == Latches(false, false, true, false, false) && IsGet(w) && env(w.now).dmc == ARM
    ensures var w' := Cycle(env, w);
            && !Active(w') && w'.now == w.now + 1 && Samples(w'.log) == Samples(w.log) + 1
            && w'.l == Latches(true, false, false, false, true)
  {
    CycleConserves(env, w);
  }

  ghost predicate QuietAfter(env: Env, from: nat) {
    forall t: nat | t >= from :: env(t).dmc == QUIET
  }

  lemma IdleCycle(env: Env, w: Window)
    requires !w.l.dmc && env(w.now).dmc == QUIET
    ensures var w' := Cycle(env, w); !w'.l.dmc && Samples(w'.log) == Samples(w.log) && w'.now == w.now + 1
  {
    CycleConserves(env, w);
  }

  /** With nothing waiting and nothing coming, no more samples are fetched. */
  lemma {:induction false} NoMoreSamples(env: Env, horizon: nat, w: Window)
    requires QuietFrom(env, horizon) && InStep(w) && !w.l.dmc && QuietAfter(env, w.now)
    ensures Samples(Drain(env, horizon, w).log) == Samples(w.log)
    decreases if w.now < horizon then horizon - w.now else 0, Work(w)
  {
    if Active(w) {
      DrainOnce(env, horizon, w);
      IdleCycle(env, w);
      NoMoreSamples(env, horizon, Cycle(env, w));
    }
  }

  /** A latched abort lets the fetch through only if the window already stands at the read slot. */
  lemma LatchedAbort(env: Env, horizon: nat, w: Window)
    requires QuietFrom(env, horizon) && InStep(w) && w.l.dmc && w.l.abort && QuietAfter(env, w.now)
    ensures Samples(Drain(env, horizon, w).log) == Samples(w.log) + One(InSampleSlot(w))
  {
    DrainOnce(env, horizon, w);
    CycleConserves(env, w);
    NoMoreSamples(env, horizon, Cycle(env, w));
  }

  /** An abort that arrives in a cycle of a window with a sample waiting stops that sample, and the
      byte is fetched all the same exactly when this cycle or the next is its read slot. */
  lemma AbortInTime(env: Env, horizon: nat, w: Window)
    requires QuietFrom(env, horizon) && InStep(w) && w.l.dmc && !w.l.abort
    requires env(w.now).dmc == ABORT && QuietAfter(env, w.now + 1)
    ensures Samples(Drain(env, horizon, w).log)
            == Samples(w.log) + One(InSampleSlot(w) || InSampleSlot(Cycle(env, w)))
  {
    var w' := Cycle(env, w);
    DrainOnce(env, horizon, w);
    CycleConserves(env, w);
    if InSampleSlot(w) {
      NoMoreSamples(env, horizon, w');
    } else {
      LatchedAbort(env, horizon, w');
    }
  }

  /** An abort in the halt cycle itself: of a sample that needs no alignment cycle the byte is fetched
      all the same exactly when the read slot comes next; any other is stopped. */
  lemma AbortInHalt(env: Env, horizon: nat, l: Latches, page: Byte, clock: nat, now: nat)
    requires QuietFrom(env, horizon) && l.needHalt && l.dmc
    requires env(now).dmc == ABORT && QuietAfter(env, now + 1)
    ensures Samples(ProcessPending(env, horizon, l, page, clock, now).log) == One(clock % 2 == 1 && !l.dummy)
  {
    HaltOpens(env, l, page, clock, now);
    NoSamplesYet();
    LatchedAbort(env, horizon, Halt(env, Opening(l, page, clock, now)));
  }

  // ---------- how long a window takes ----------

  ghost predicate QuietFor(env: Env, from: nat, n: nat) {
    forall t: nat | from <= t < from + n :: env(t).dmc == QUIET
  }

  const IDLE := Latches(false, false, false, false, false)
  const SPRITE := Latches(false, true, false, false, false)
  const SAMPLE := Latches(true, false, true, false, true)

  /** All that timing depends on while nothing new arrives. */
  datatype Phase = Phase(l: Latches, get: bool, counter: nat)

  function PhaseOf(w: Window): Phase {
    Phase(w.l, IsGet(w), w.counter)
  }

  predicate PhaseInStep(p: Phase) {
    (p.l.sprite ==> p.counter < BYTES) && (p.get || !p.l.sprite ==> p.counter % 2 == 0)
  }

  function QuietCycle(p: Phase): Phase {
    var l := Process(p.l);
    if p.get then
      if SampleReady(p.l) then Phase(l.(dmc := false, abort := false), false, p.counter)
      else if p.l.sprite then Phase(l, false, p.counter + 1)
      else Phase(l, false, p.counter)
    else if p.l.sprite && p.counter % 2 == 1 then
      Phase(l.(sprite := p.counter + 1 != BYTES), true, p.counter + 1)
    else
      Phase(l, true, p.counter)
  }

  function PhaseWork(p: Phase): nat
    requires PhaseInStep(p)
  {
    (if p.l.sprite then 2 * (BYTES - p.counter) else 0)
    + (if p.l.dmc then 2 + (if p.l.needHalt then 2 else 0) + (if p.l.dummy then 2 else 0) else 0)
    + (if p.get then 0 else 1)
  }

  /** Cycles until an undisturbed window closes. */
  function Remaining(p: Phase): nat
    requires PhaseInStep(p)
    decreases PhaseWork(p)
  {
    if p.l.dmc || p.l.sprite then 1 + Remaining(QuietCycle(p)) else 0
  }

  lemma RemainingOnce(p: Phase)
    requires PhaseInStep(p) && (p.l.dmc || p.l.sprite)
    ensures PhaseInStep(QuietCycle(p)) && Remaining(p) == 1 + Remaining(QuietCycle(p))
  {
  }

  lemma QuietCyclePhase(env: Env, w: Window)
    requires env(w.now).dmc == QUIET
    ensures PhaseOf(Cycle(env, w)) == QuietCycle(PhaseOf(w))
  {
  }

  lemma {:induction false} DrainTakesRemaining(env: Env, horizon: nat, w: Window)
    requires QuietFrom(env, horizon) && InStep(w)
    requires QuietFor(env, w.now, Remaining(PhaseOf(w)))
    ensures Drain(env, horizon, w).now == w.now + Remaining(PhaseOf(w))
    decreases Remaining(PhaseOf(w))
  {
    if Active(w) {
      RemainingOnce(PhaseOf(w));
      assert env(w.now).dmc == QUIET;
      QuietCyclePhase(env, w);
      DrainOnce(env, horizon, w);
      DrainTakesRemaining(env, horizon, Cycle(env, w));
    }
  }

  lemma {:induction false} RemainingOnSchedule(p: Phase)
    requires p.l == (if p.counter < BYTES then SPRITE else IDLE)
    requires p.counter <= BYTES && (p.get <==> p.counter % 2 == 0)
    ensures PhaseInStep(p) && Remaining(p) == BYTES - p.counter
    decreases BYTES - p.counter
  {
    if p.counter < BYTES {
      RemainingOnSchedule(QuietCycle(p));
    }
  }

  /** What a request costs, by how many transfer cycles remain after the cycle it arrives in. */
  function Extra(remaining: nat): nat {
    if remaining < 2 then 3 else if remaining < 4 then 1 else 2
  }

  /** A request just armed while `left` transfer cycles remain on schedule. */
  function JustArmed(left: nat): Phase
    requires left <= BYTES
  {
    Phase(Latches(true, left > 0, true, false, true), left % 2 == 0, BYTES - left)
  }

  lemma RemainingJustArmed(left: nat)
    requires left <= BYTES
    ensures PhaseInStep(JustArmed(left)) && Remaining(JustArmed(left)) == left + Extra(left)
  {
    if left >= 4 {
      RemainingArmedEarly(left);
    } else {
      RemainingArmedLate(left);
    }
  }

  lemma RemainingArmedLate(left: nat)
    requires left < 4
    ensures PhaseInStep(JustArmed(left)) && Remaining(JustArmed(left)) == left + Extra(left)
  {
    var p1 := QuietCycle(JustArmed(left));
    var p2 := QuietCycle(p1);
    RemainingOnce(JustArmed(left));
    RemainingOnce(p1);
    RemainingOnce(p2);
  }

  /** Two cycles clear the halt and dummy latches, then the next get cycle fetches the sample. */
  lemma RemainingArmedEarly(left: nat)
    requires 4 <= left <= BYTES
    ensures PhaseInStep(JustArmed(left)) && Remaining(JustArmed(left)) == left + 2
  {
    var get, c := left % 2 == 0, BYTES - left;
    var p1 := Phase(Latches(false, true, true, false, true), !get, c + 1);
    var p2 := Phase(Latches(false, true, true, false, false), get, c + 2);
    ArmedCycles(left);
    RemainingOnce(JustArmed(left));
    RemainingOnce(p1);
    RemainingReady(p2);
  }

  lemma ArmedCycles(left: nat)
    requires 4 <= left <= BYTES
    ensures var get, c := left % 2 == 0, BYTES - left;
            var p1 := Phase(Latches(false, true, true, false, true), !get, c + 1);
            PhaseInStep(JustArmed(left)) && QuietCycle(JustArmed(left)) == p1 && PhaseInStep(p1)
            && QuietCycle(p1) == Phase(Latches(false, true, true, false, false), get, c + 2)
  {
  }

  /** A sample whose latches are clear costs its read and one idle put cycle. */
  lemma RemainingReady(p: Phase)
    requires p.l == Latches(false, true, true, false, false) && p.counter < BYTES - 1
    requires p.get <==> p.counter % 2 == 0
    ensures PhaseInStep(p) && Remaining(p) == BYTES - p.counter + 2
    decreases BYTES - p.counter
  {
    if p.get {
      RemainingAtSlot(p);
    } else {
      var q := Phase(Latches(false, true, true, false, false), true, p.counter + 1);
      assert QuietCycle(p) == q;
      RemainingOnce(p);
      RemainingReady(q);
    }
  }

  /** The read itself, then the idle put cycle, then the transfer on schedule. */
  lemma RemainingAtSlot(p: Phase)
    requires p.l == Latches(false, true, true, false, false) && p.counter < BYTES - 1
    requires p.get && p.counter % 2 == 0
    ensures PhaseInStep(p) && Remaining(p) == BYTES - p.counter + 2
  {
    var q := Phase(SPRITE, false, p.counter);
    assert QuietCycle(p) == q && QuietCycle(q) == Phase(SPRITE, true, p.counter);
    RemainingOnce(p);
    RemainingOnce(q);
    RemainingOnSchedule(Phase(SPRITE, true, p.counter));
  }

  function SoloLength(clock: nat): nat {
    if clock % 2 == 0 then 514 else 513
  }

  lemma RemainingFromHalt(get: bool)
    ensures Remaining(Phase(SPRITE, get, 0)) == if get then 512 else 513
    ensures Remaining(Phase(Latches(false, true, true, false, true), get, 0)) == if get then 514 else 515
    ensures Remaining(Phase(Latches(true, true, true, false, true), get, 0)) == if get then 514 else 515
  {
    RemainingOnSchedule(Phase(SPRITE, true, 0));
    RemainingReady(Phase(Latches(false, true, true, false, false), true, 0));
    RemainingReady(Phase(Latches(false, true, true, false, false), false, 1));
    RemainingOnce(Phase(Latches(false, true, true, false, true), get, 0));
    RemainingJustArmed(512);
    if !get {
      RemainingOnce(Phase(SPRITE, get, 0));
      RemainingOnce(Phase(Latches(true, true, true, false, true), get, 0));
      RemainingOnce(Phase(Latches(false, true, true, false, true), true, 0));
    }
  }

  lemma RemainingForSample(get: bool)
    ensures Remaining(Phase(Latches(false, false, true, false, true), get, 0)) == if get then 3 else 2
  {
  }

  lemma ProcessPendingTakes(env: Env, horizon: nat, l: Latches, page: Byte, clock: nat, now: nat)
    requires QuietFrom(env, horizon) && l.needHalt
    requires var p := Phase(l.(needHalt := false), clock % 2 == 1, 0);
             QuietFor(env, now, 1 + Remaining(p))
    ensures ProcessPending(env, horizon, l, page, clock, now).now
            == now + 1 + Remaining(Phase(l.(needHalt := false), clock % 2 == 1, 0))
  {
    assert env(now).dmc == QUIET;
    HaltPhase(env, l, page, clock, now);
    DrainTakesRemaining(env, horizon, Halt(env, Opening(l, page, clock, now)));
  }

  lemma HaltPhase(env: Env, l: Latches, page: Byte, clock: nat, now: nat)
    requires env(now).dmc == QUIET
    ensures var w := Halt(env, Opening(l, page, clock, now));
            PhaseOf(w) == Phase(l.(needHalt := false), clock % 2 == 1, 0) && w.now == now + 1
  {
  }

  /** How long a lone sample takes from a window that opens at the given clock. */
  function SampleLength(clock: nat): nat {
    if clock % 2 == 0 then 3 else 4
  }

  /** A lone sample fetch steals 3 cycles when its halt falls on a get cycle, else 4. */
  lemma SampleAlone(env: Env, horizon: nat, page: Byte, clock: nat, now: nat)
    requires QuietFrom(env, horizon) && QuietFor(env, now, 4)
    ensures ProcessPending(env, horizon, SAMPLE, page, clock, now).now == now + SampleLength(clock)
  {
    RemainingForSample(clock % 2 == 1);
    ProcessPendingTakes(env, horizon, SAMPLE, page, clock, now);
  }

  /** An abort in cycle i of a lone sample's window: up to the third cycle from its end it closes the
      window on the next cycle with nothing fetched; in the last two it changes nothing. */
  lemma SampleAborted(env: Env, horizon: nat, page: Byte, clock: nat, now: nat, i: nat)
    requires QuietFrom(env, horizon)
    requires var n := SampleLength(clock);
             i < n && env(now + i).dmc == ABORT && QuietFor(env, now, i) && QuietAfter(env, now + i + 1)
    ensures var n := SampleLength(clock);
            var d := ProcessPending(env, horizon, SAMPLE, page, clock, now);
            && Samples(d.log) == One(i + 2 >= n)
            && d.now == now + if i + 2 >= n then n else i + 2
  {
    assert OnlyAbort(env, now, now + i);
    HaltWaits(env, page, clock, now, i == 0);
    AbortedRun(env, horizon, Halt(env, Opening(SAMPLE, page, clock, now)), SampleLength(clock) - 1, now + i);
  }

  /** From tick `first` on the sound channel does nothing but abort in tick `at`. */
  ghost predicate OnlyAbort(env: Env, first: nat, at: nat) {
    forall t: nat | t >= first :: env(t).dmc == if t == at then ABORT else QUIET
  }

  lemma HaltWaits(env: Env, page: Byte, clock: nat, now: nat, aborted: bool)
    requires env(now).dmc == if aborted then ABORT else QUIET
    ensures var w := Halt(env, Opening(SAMPLE, page, clock, now));
            && WaitsFor(w, SampleLength(clock) - 1) && w.l.abort == aborted && w.now == now + 1
            && Samples(w.log) == 0 && Active(w)
  {
    HaltOpens(env, SAMPLE, page, clock, now);
    NoSamplesYet();
  }

  /** The same from the cycle after the halt, m cycles before the window would close; an abort in the
      cycle before is already latched here. */
  lemma {:induction false} AbortedRun(env: Env, horizon: nat, w: Window, m: nat, at: nat)
    requires QuietFrom(env, horizon) && 1 <= m <= 3 && w.now <= at + 1 <= w.now + m
    requires WaitsFor(w, m) && w.l.abort == (at + 1 == w.now) && OnlyAbort(env, w.now, at)
    ensures var d := Drain(env, horizon, w);
            && Samples(d.log) == Samples(w.log) + One(at + 2 >= w.now + m)
            && d.now == if at + 2 >= w.now + m then w.now + m else at + 2
    decreases m
  {
    var tick := env(w.now).dmc;
    if w.now <= at && m > 1 {
      DrainOnce(env, horizon, w);
      WaitsLess(env, w, m);
      AbortedRun(env, horizon, Cycle(env, w), m - 1, at);
    } else {
      LastDrain(env, horizon, w, m);
    }
  }

  lemma LastDrain(env: Env, horizon: nat, w: Window, m: nat)
    requires QuietFrom(env, horizon) && InStep(w)
    requires 1 <= m <= 3 && WaitsFor(w, m) && (m == 1 || w.l.abort) && !env(w.now).dmc.arm
    ensures var d := Drain(env, horizon, w);
            Samples(d.log) == Samples(w.log) + One(m == 1) && d.now == w.now + 1
  {
    DrainOnce(env, horizon, w);
    LastCycle(env, w, m);
  }

  lemma LastCycle(env: Env, w: Window, m: nat)
    requires 1 <= m <= 3 && WaitsFor(w, m) && (m == 1 || w.l.abort) && !env(w.now).dmc.arm
    ensures var w' := Cycle(env, w);
            !Active(w') && Samples(w'.log) == Samples(w.log) + One(m == 1) && w'.now == w.now + 1
  {
    CycleConserves(env, w);
  }

  /** A lone sample m cycles before the end of its window. */
  predicate WaitsFor(w: Window, m: nat) {
    && w.counter == 0 && !w.l.needHalt && !w.l.sprite && w.l.dmc
    && (m == 1 ==> IsGet(w) && !w.l.dummy) && (m == 2 ==> !IsGet(w)) && (m == 3 ==> IsGet(w) && w.l.dummy)
  }

  lemma WaitsLess(env: Env, w: Window, m: nat)
    requires m in {2, 3} && WaitsFor(w, m) && !w.l.abort && !env(w.now).dmc.arm
    ensures var w' := Cycle(env, w);
            && WaitsFor(w', m - 1) && w'.l.abort == env(w.now).dmc.abort && w'.now == w.now + 1
            && Samples(w'.log) == Samples(w.log)
  {
    WaitingCycle(env, w);
  }

  /** Away from the slot a waiting cycle only clears the dummy latch. */
  lemma WaitingCycle(env: Env, w: Window)
    requires !w.l.sprite && !InSampleSlot(w) && !w.l.abort && !w.l.needHalt && !env(w.now).dmc.arm
    ensures var w' := Cycle(env, w);
            && w'.l == w.l.(dummy := false, abort := env(w.now).dmc.abort) && w'.counter == w.counter
            && (IsGet(w') <==> !IsGet(w)) && w'.now == w.now + 1 && Samples(w'.log) == Samples(w.log)
  {
    var w' := Advance(w, w.l.(dummy := false, abort := env(w.now).dmc.abort), DummyRead);
    assert Cycle(env, w) == w';
    assert w'.log[..|w.log|] == w.log;
  }

  /** During an interrupt entry the parity comes from a cycle count that still includes the last
      instruction's; when that instruction took an odd number of cycles the steal has the wrong length. */
  lemma StaleParityMissizesSample(env: Env, horizon: nat, page: Byte, clock: nat, stale: nat, now: nat)
    requires QuietFrom(env, horizon) && QuietFor(env, now, 4)
    ensures ProcessPending(env, horizon, SAMPLE, page, clock + stale, now).now
            == now + if stale % 2 == 0 then SampleLength(clock) else 7 - SampleLength(clock)
  {
    SampleAlone(env, horizon, page, clock + stale, now);
  }

  lemma SpriteAlone(env: Env, horizon: nat, page: Byte, clock: nat, now: nat)
    requires QuietFrom(env, horizon) && QuietFor(env, now, SoloLength(clock))
    ensures ProcessPending(env, horizon, SPRITE.(needHalt := true), page, clock, now).now == now + SoloLength(clock)
  {
    RemainingFromHalt(clock % 2 == 1);
    ProcessPendingTakes(env, horizon, SPRITE.(needHalt := true), page, clock, now);
  }

  /** Both pending at entry: the sample costs two more cycles. */
  lemma SpriteAndSample(env: Env, horizon: nat, page: Byte, clock: nat, now: nat)
    requires QuietFrom(env, horizon) && QuietFor(env, now, SoloLength(clock) + 2)
    ensures ProcessPending(env, horizon, SAMPLE.(sprite := true), page, clock, now).now == now + SoloLength(clock) + 2
  {
    RemainingFromHalt(clock % 2 == 1);
    ProcessPendingTakes(env, horizon, SAMPLE.(sprite := true), page, clock, now);
  }

  /** Undisturbed transfer cycles before the request arrives. */
  lemma {:induction false} SpriteProgress(env: Env, horizon: nat, w: Window, n: nat)
    requires QuietFrom(env, horizon) && QuietFor(env, w.now, n)
    requires w.l == SPRITE && (IsGet(w) <==> w.counter % 2 == 0)
    requires n < BYTES - w.counter
    ensures var w' := Cycles(env, w, n);
            && PhaseOf(w') == Phase(SPRITE, (w.counter + n) % 2 == 0, w.counter + n) && w'.now == w.now + n
            && InStep(w') && Drain(env, horizon, w) == Drain(env, horizon, w')
    decreases n
  {
    if n > 0 {
      assert env(w.now).dmc == QUIET;
      SpriteProgress(env, horizon, Cycle(env, w), n - 1);
    }
  }

  /** The cycle in which a request arrives during a transfer that is on schedule. */
  lemma ArmingCycle(env: Env, w: Window)
    requires w.l == SPRITE && (IsGet(w) <==> w.counter % 2 == 0) && w.counter < BYTES
    requires env(w.now).dmc == ARM
    ensures PhaseOf(Cycle(env, w)) == JustArmed(BYTES - w.counter - 1)
  {
  }

  lemma ArmedNow(env: Env, horizon: nat, w: Window)
    requires QuietFrom(env, horizon)
    requires w.l == SPRITE && (IsGet(w) <==> w.counter % 2 == 0) && w.counter < BYTES
    requires env(w.now).dmc == ARM && QuietFor(env, w.now + 1, BYTES - w.counter + 2)
    ensures Drain(env, horizon, w).now == w.now + BYTES - w.counter + Extra(BYTES - w.counter - 1)
  {
    ArmingCycle(env, w);
    RemainingJustArmed(BYTES - w.counter - 1);
    DrainOnce(env, horizon, w);
    DrainTakesRemaining(env, horizon, Cycle(env, w));
  }

  lemma SampleLater(env: Env, horizon: nat, w: Window, j: nat)
    requires QuietFrom(env, horizon)
    requires w.l == SPRITE && (IsGet(w) <==> w.counter % 2 == 0) && j < BYTES - w.counter
    requires env(w.now + j).dmc == ARM
    requires QuietFor(env, w.now, j) && QuietFor(env, w.now + j + 1, BYTES - w.counter - j + 2)
    ensures Drain(env, horizon, w).now == w.now + BYTES - w.counter + Extra(BYTES - w.counter - 1 - j)
  {
    SpriteProgress(env, horizon, w, j);
    ArmedNow(env, horizon, Cycles(env, w, j));
  }

  /** The request arrives in the halt cycle itself. */
  lemma SampleInHalt(env: Env, horizon: nat, w: Window)
    requires QuietFrom(env, horizon)
    requires w.counter == 0 && w.l == Latches(true, true, true, false, true)
    requires QuietFor(env, w.now, BYTES + 3)
    ensures Drain(env, horizon, w).now == w.now + (if IsGet(w) then BYTES else BYTES + 1) + 2
  {
    RemainingFromHalt(IsGet(w));
    DrainTakesRemaining(env, horizon, w);
  }

  /** The window spends an alignment cycle before its first read. */
  lemma SampleAfterAlignment(env: Env, horizon: nat, w: Window, j: nat)
    requires QuietFrom(env, horizon)
    requires w.counter == 0 && w.l == SPRITE && !IsGet(w)
    requires j <= BYTES && env(w.now + j).dmc == ARM
    requires QuietFor(env, w.now, j) && QuietFor(env, w.now + j + 1, BYTES - j + 3)
    ensures Drain(env, horizon, w).now == w.now + BYTES + 1 + Extra(BYTES - j)
  {
    DrainOnce(env, horizon, w);
    if j == 0 {
      AlignmentArmed(env, w);
      RemainingJustArmed(BYTES);
      DrainTakesRemaining(env, horizon, Cycle(env, w));
    } else {
      assert env(w.now).dmc == QUIET;
      QuietCyclePhase(env, w);
      assert PhaseOf(Cycle(env, w)) == Phase(SPRITE, true, 0);
      SampleLater(env, horizon, Cycle(env, w), j - 1);
    }
  }

  lemma AlignmentArmed(env: Env, w: Window)
    requires w.counter == 0 && w.l == SPRITE && !IsGet(w) && env(w.now).dmc == ARM
    ensures PhaseOf(Cycle(env, w)) == JustArmed(BYTES)
  {
  }

  /** One request armed in cycle i of a sprite window costs 1, 2 or 3 cycles, depending only on
      how many cycles of the window are left. */
  lemma SampleDuringSprite(env: Env, horizon: nat, page: Byte, clock: nat, now: nat, i: nat)
    requires QuietFrom(env, horizon)
    requires i < SoloLength(clock)
    requires env(now + i).dmc == ARM
    requires QuietFor(env, now, i) && QuietFor(env, now + i + 1, SoloLength(clock) - i + 2)
    ensures ProcessPending(env, horizon, SPRITE.(needHalt := true), page, clock, now).now
            == now + SoloLength(clock) + Extra(SoloLength(clock) - 1 - i)
  {
    var w := Halt(env, Opening(SPRITE.(needHalt := true), page, clock, now));
    assert IsGet(w) <==> clock % 2 == 1;
    if i == 0 {
      SampleInHalt(env, horizon, w);
    } else {
      assert env(now).dmc == QUIET;
      if clock % 2 == 0 {
        SampleAfterAlignment(env, horizon, w, i - 1);
      } else {
        SampleLater(env, horizon, w, i - 1);
      }
    }
  }

  // ---------- calm ticks ----------

  /** The tick requests no sample and starts no OAM transfer. */
  predicate Idle(env: Env, t: nat) {
    !env(t).dmc.arm && env(t).oam.None?
  }

  ghost predicate Calm(env: Env, first: nat, n: nat) {
    forall t: nat | first <= t < first + n :: Idle(env, t)
  }

  lemma CalmNow(env: Env, first: nat)
    ensures Calm(env, first, 1) ==> !env(first).dmc.arm && env(first).oam.None?
  {
    assert Calm(env, first, 1) ==> Idle(env, first);
  }

  lemma {:induction false} DrainTakesTime(env: Env, horizon: nat, w: Window)
    requires QuietFrom(env, horizon) && InStep(w)
    ensures Drain(env, horizon, w).now >= w.now
    decreases if w.now < horizon then horizon - w.now else 0, Work(w)
  {
    if Active(w) {
      DrainOnce(env, horizon, w);
      WorkFalls(env, horizon, w);
      DrainTakesTime(env, horizon, Cycle(env, w));
    }
  }

  /** A window during which nothing is asked for leaves no halt behind. */
  lemma {:induction false} CalmDrainEnds(env: Env, horizon: nat, w: Window)
    requires QuietFrom(env, horizon) && InStep(w) && !w.l.needHalt
    requires Drain(env, horizon, w).now >= w.now && Calm(env, w.now, Drain(env, horizon, w).now - w.now)
    ensures !Drain(env, horizon, w).l.needHalt
    decreases if w.now < horizon then horizon - w.now else 0, Work(w)
  {
    if Active(w) {
      var w' := Cycle(env, w);
      DrainOnce(env, horizon, w);
      WorkFalls(env, horizon, w);
      DrainTakesTime(env, horizon, w');
      assert Idle(env, w.now);
      CalmDrainEnds(env, horizon, w');
    }
  }

  lemma WindowTakesTime(env: Env, horizon: nat, l: Latches, page: Byte, clock: nat, now: nat)
    requires QuietFrom(env, horizon)
    ensures ProcessPending(env, horizon, l, page, clock, now).now >= now
  {
    if l.needHalt {
      DrainTakesTime(env, horizon, Halt(env, Opening(l, page, clock, now)));
    }
  }

  /** A window and one more tick during which nothing is asked for leave no halt behind. */
  lemma CalmWindowEnds(env: Env, horizon: nat, l: Latches, page: Byte, clock: nat, now: nat)
    requires QuietFrom(env, horizon)
    ensures var d := ProcessPending(env, horizon, l, page, clock, now);
            d.now >= now && (Calm(env, now, d.now - now + 1) ==> !d.l.needHalt && !env(d.now).dmc.arm)
  {
    var d := ProcessPending(env, horizon, l, page, clock, now);
    WindowTakesTime(env, horizon, l, page, clock, now);
    if Calm(env, now, d.now - now + 1) {
      assert Idle(env, now) && Idle(env, d.now);
      if l.needHalt {
        var w := Halt(env, Opening(l, page, clock, now));
        DrainTakesTime(env, horizon, w);
        CalmDrainEnds(env, horizon, w);
      }
    }
  }
}
