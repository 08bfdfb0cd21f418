/** The debugged machine: registers, 64 KiB RAM, devices, and the page-level
    before-images that RAM records between two snapshots. */
module Machine {
  import opened Basics

  const PAGE := 256
  const RAM_SIZE := 0x1_0000

  type Memory = m: seq<Byte> | |m| == RAM_SIZE witness seq(RAM_SIZE, _ => 0)

  type Page = p: seq<Byte> | |p| == PAGE witness seq(PAGE, _ => 0)

  type Pages = map<Byte, Page>

  /** Everything `CPU.Snapshot` captures of the processor. */
  datatype Regs = Regs(a: Byte, x: Byte, y: Byte, sp: Byte, p: Byte, pc: Word, cycles: nat, halted: bool,
                       extraCycles: int, irqLine: bool, nmiPending: bool)

  /** Device state by MMIO base address, as each device serialises itself. */
  type Devices = map<string, seq<Byte>>

  datatype State = State(regs: Regs, ram: Memory, devices: Devices)

  datatype Write = Write(addr: Word, value: Byte)

  datatype Outcome = Outcome(regs: Regs, writes: seq<Write>, devices: Devices)

  /** An arbitrary deterministic processor: one instruction yields new registers, the
      writes that reach RAM in order, and new device states. `frozen` is the
      debugger's freeze set. */
  datatype Cpu = Cpu(execute: State -> Outcome, frozen: set<Word>)

  function PageOf(addr: Word): Byte {
    addr / PAGE
  }

  function PageImage(m: Memory, page: Byte): Page {
    m[page * PAGE..page * PAGE + PAGE]
  }

  // ---------- one write through the barrier ----------

  /** RAM contents together with the before-images of the current epoch. */
  datatype Barrier = Barrier(ram: Memory, shadow: Pages)

  function WriteThrough(b: Barrier, frozen: set<Word>, w: Write): Barrier {
    if w.addr in frozen then b
    else
      var page := PageOf(w.addr);
      var shadow := if page in b.shadow then b.shadow else b.shadow[page := PageImage(b.ram, page)];
      Barrier(b.ram[w.addr := w.value], shadow)
  }

  function WriteAll(b: Barrier, frozen: set<Word>, ws: seq<Write>): Barrier
    decreases |ws|
  {
    if ws == [] then b else WriteAll(WriteThrough(b, frozen, ws[0]), frozen, ws[1..])
  }

  /** Copying page images back over RAM, as `Restore` does. */
  function ApplyPages(m: Memory, pages: Pages): Memory {
    seq(RAM_SIZE, a requires 0 <= a < RAM_SIZE => if PageOf(a) in pages then pages[PageOf(a)][a % PAGE] else m[a])
  }

  /** The shadow holds exactly what is needed to get back to `epoch`. */
  ghost predicate Restores(b: Barrier, epoch: Memory) {
    forall a: Word ::
      epoch[a] == if PageOf(a) in b.shadow then b.shadow[PageOf(a)][a % PAGE] else b.ram[a]
  }

  lemma PageImageAt(m: Memory, a: Word)
    ensures PageImage(m, PageOf(a))[a % PAGE] == m[a]
  {
    assert a == PageOf(a) * PAGE + a % PAGE;
  }

  lemma WriteThroughRestores(b: Barrier, frozen: set<Word>, w: Write, epoch: Memory)
    requires Restores(b, epoch)
    ensures Restores(WriteThrough(b, frozen, w), epoch)
  {
    var b' := WriteThrough(b, frozen, w);
    forall a: Word
      ensures epoch[a] == if PageOf(a) in b'.shadow then b'.shadow[PageOf(a)][a % PAGE] else b'.ram[a]
    {
      PageImageAt(b.ram, a);
    }
  }

  lemma {:induction false} WriteAllRestores(b: Barrier, frozen: set<Word>, ws: seq<Write>, epoch: Memory)
    requires Restores(b, epoch)
    ensures Restores(WriteAll(b, frozen, ws), epoch)
    decreases |ws|
  {
    if ws != [] {
      WriteThroughRestores(b, frozen, ws[0], epoch);
      WriteAllRestores(WriteThrough(b, frozen, ws[0]), frozen, ws[1..], epoch);
    }
  }

  /** Whatever is written in an epoch, applying the claimed pages restores RAM byte for byte. */
  lemma UndoWrites(m: Memory, frozen: set<Word>, ws: seq<Write>)
    ensures var b := WriteAll(Barrier(m, map[]), frozen, ws);
            ApplyPages(b.ram, b.shadow) == m
  {
    WriteAllRestores(Barrier(m, map[]), frozen, ws, m);
    var b := WriteAll(Barrier(m, map[]), frozen, ws);
    var back := ApplyPages(b.ram, b.shadow);
    forall i | 0 <= i < RAM_SIZE ensures back[i] == m[i] {
      var a: Word := i;
      assert back[a] == if PageOf(a) in b.shadow then b.shadow[PageOf(a)][a % PAGE] else b.ram[a];
    }
    assert |back| == |m|;
  }

  /** Frozen addresses keep their value through any writes. */
  lemma {:induction false} FrozenHolds(b: Barrier, frozen: set<Word>, ws: seq<Write>, a: Word)
    requires a in frozen
    ensures WriteAll(b, frozen, ws).ram[a] == b.ram[a]
    decreases |ws|
  {
    if ws != [] {
      FrozenHolds(WriteThrough(b, frozen, ws[0]), frozen, ws[1..], a);
    }
  }

  // ---------- stepping ----------

  /** A step never adds or removes a device. */
  function KeepWired(was: Devices, now: Devices): Devices {
    map k | k in was :: if k in now then now[k] else was[k]
  }

  function Epoch(cpu: Cpu, s: State): Barrier {
    WriteAll(Barrier(s.ram, map[]), cpu.frozen, cpu.execute(s).writes)
  }

  function Next(cpu: Cpu, s: State): State {
    State(cpu.execute(s).regs, Epoch(cpu, s).ram, KeepWired(s.devices, cpu.execute(s).devices))
  }

  // ---------- reset ----------

  const RESET_VECTOR: Word := 0xFFFC
  const FLAG_I: Byte := 0x04
  const FLAG_U: Byte := 0x20

  /** `CPU.Reset` on the NMOS core: RAM, devices and the interrupt latches stay. */
  function ResetState(s: State): State {
    s.(regs := s.regs.(a := 0, x := 0, y := 0, sp := 0xFD, p := FLAG_U + FLAG_I,
                       pc := WordOf(s.ram[RESET_VECTOR], s.ram[RESET_VECTOR + 1]),
                       cycles := 7, halted := false))
  }
}
