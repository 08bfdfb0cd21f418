/** The NES DMA window as a function of its environment: OAM transfers and DMC sample
    fetches share the bus, one bus operation per cycle. */
module Dma {
  import opened Basics

  /** What the sound channel asks for inside one cycle: its own tick may request a sample, and a
      register write in the same cycle may request one or abort. The order makes no difference. */
  datatype DmcEvent = DmcEvent(arm: bool, abort: bool)

  const QUIET := DmcEvent(false, false)
  const ARM := DmcEvent(true, false)
  const ABORT := DmcEvent(false, true)

  /** The environment during one CPU cycle: the byte any read returns, where the sound
      channel wants its sample from, its request, the interrupt lines at the end of the
      cycle, and the page of an OAM transfer started by this cycle's write. */
  datatype Tick = Tick(dmc: DmcEvent, data: Byte, dmcAddr: Word, nmiLine: bool, irqLine: bool, oam: Option<Byte>)

  type Env = nat -> Tick

  datatype Latches = Latches(needHalt: bool, sprite: bool, dmc: bool, abort: bool, dummy: bool)

  datatype Op = DummyRead | SpriteRead(addr: Word, value: Byte) | SpriteWrite(value: Byte)
              | DmcRead(addr: Word, value: Byte)

  /** `clock` is Cycles + instrCycles, whose parity tells get cycles from put cycles;
      `now` counts bus ticks and indexes the environment. */
  datatype Window = Window(l: Latches, page: Byte, clock: nat, now: nat,
                           counter: nat, low: Byte, value: Byte, log: seq<Op>)

  const BYTES := 0x200

  // ---------- one cycle ----------

  function React(l: Latches, e: DmcEvent): Latches {
    Latches(l.needHalt || e.arm, l.sprite, l.dmc || e.arm, l.abort || e.abort, l.dummy || e.arm)
  }

  /** The latch bookkeeping at the top of each loop cycle. */
  function Process(l: Latches): Latches {
    if l.abort then l.(dmc := false, abort := false, dummy := false, needHalt := false)
    else if l.needHalt then l.(needHalt := false)
    else if l.dummy then l.(dummy := false)
    else l
  }

  predicate IsGet(w: Window) {
    w.clock % 2 == 0
  }

  predicate SampleReady(l: Latches) {
    l.dmc && !l.needHalt && !l.dummy
  }

  predicate InSampleSlot(w: Window) {
    IsGet(w) && SampleReady(w.l)
  }

  function Advance(w: Window, l: Latches, op: Op): Window {
    w.(l := l, clock := w.clock + 1, now := w.now + 1, log := w.log + [op])
  }

  lemma SpriteStays(l: Latches, e: DmcEvent)
    ensures React(Process(l), e).sprite == l.sprite
  {
  }

  function Cycle(env: Env, w: Window): Window {
    var tick := env(w.now);
    var l := React(Process(w.l), tick.dmc);
    if IsGet(w) then
      if SampleReady(w.l) then
        Advance(w, l.(dmc := false, abort := false), DmcRead(tick.dmcAddr, tick.data)).(value := tick.data)
      else if w.l.sprite then
        Advance(w, l, SpriteRead(WordOf(w.low, w.page), tick.data))
          .(value := tick.data, low := (w.low + 1) % 0x100, counter := w.counter + 1)
      else
        Advance(w, l, DummyRead)
    else if w.l.sprite && w.counter % 2 == 1 then
      Advance(w, l.(sprite := w.counter + 1 != BYTES), SpriteWrite(w.value)).(counter := w.counter + 1)
    else
      Advance(w, l, DummyRead)
  }

  // ---------- the whole window ----------

  predicate Active(w: Window) {
    w.l.dmc || w.l.sprite
  }

  /** Reads happen on get cycles and writes on put cycles, so the counter is even on a get. */
  predicate InStep(w: Window) {
    (w.l.sprite ==> w.counter < BYTES) && (IsGet(w) || !w.l.sprite ==> w.counter % 2 == 0)
  }

  /** Only finitely many requests: none from tick `horizon` on. */
  ghost predicate QuietFrom(env: Env, horizon: nat) {
    forall t: nat | t >= horizon :: !env(t).dmc.arm
  }

  /** Cycles still needed once no further request can arrive, counted in half steps. */
  function Work(w: Window): nat
    requires InStep(w)
  {
    (if w.l.sprite then 2 * (BYTES - w.counter) else 0)
    + (if w.l.dmc then 2 + (if w.l.needHalt then 2 else 0) + (if w.l.dummy then 2 else 0) else 0)
    + (if IsGet(w) then 0 else 1)
  }

  ghost function Drain(env: Env, horizon: nat, w: Window): Window
    requires QuietFrom(env, horizon) && InStep(w)
    decreases if w.now < horizon then horizon - w.now else 0, Work(w)
  {
    if Active(w) then Drain(env, horizon, Cycle(env, w)) else w
  }

  /** The halt cycle that opens a window. */
  function Halt(env: Env, w: Window): Window {
    Advance(w, React(w.l.(needHalt := false), env(w.now).dmc), DummyRead)
  }

  /** A window about to be drained at the given clock and tick. */
  function Opening(l: Latches, page: Byte, clock: nat, now: nat): Window {
    Window(l, page, clock, now, 0, 0, 0, [])
  }

  ghost function ProcessPending(env: Env, horizon: nat, l: Latches, page: Byte, clock: nat, now: nat): Window
    requires QuietFrom(env, horizon)
  {
    if l.needHalt then Drain(env, horizon, Halt(env, Opening(l, page, clock, now)))
    else Opening(l, page, clock, now)
  }

  /** n cycles, whether or not the window is still active. */
  function Cycles(env: Env, w: Window, n: nat): Window
    decreases n
  {
    if n == 0 then w else Cycles(env, Cycle(env, w), n - 1)
  }
}
