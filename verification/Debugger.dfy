/** The debugger's mutable objects, each method proved against the session functions of
    module Rewind: RAM with its write barrier, the processor, and the rewinding Model. */
module Debugger {
  import opened Basics
  import opened Machine
  import opened Rewind
  import opened RewindProofs
  import opened Rings

  class Ram {
    const data: array<Byte>
    /** None while shadow tracking is off. */
    var shadow: Option<Pages>
    var frozen: set<Word>

    ghost predicate Valid() {
      data.Length == RAM_SIZE
    }

    function Contents(): Memory
      requires Valid()
      reads this, data
    {
      data[..]
    }

    ghost function Epoch(): Barrier
      requires Valid() && shadow.Some?
      reads this, data
    {
      Barrier(Contents(), shadow.value)
    }

    constructor ()
      ensures Valid() && fresh(data) && shadow == None && frozen == {}
      ensures Contents() == seq(RAM_SIZE, _ => 0)
    {
      data := new Byte[RAM_SIZE](_ => 0);
      shadow, frozen := None, {};
    }

    method EnableShadow()
      requires Valid()
      modifies this`shadow
      ensures shadow == if old(shadow).Some? then old(shadow) else Some(map[])
    {
      if shadow.None? {
        shadow := Some(map[]);
      }
    }

    /** The before-image is taken on the first touch of a page; a frozen address is left alone. */
    method Write(addr: Word, v: Byte)
      requires Valid()
      modifies this`shadow, data
      ensures shadow.Some? <==> old(shadow).Some?
      ensures shadow.Some? ==> Epoch() == WriteThrough(old(Epoch()), frozen, Machine.Write(addr, v))
      ensures shadow.None? ==>
                Contents() == if addr in frozen then old(Contents()) else old(Contents())[addr := v]
    {
      if addr in frozen {
        return;
      }
      if shadow.Some? {
        var page := PageOf(addr);
        if page !in shadow.value {
          var base := page * PAGE;
          shadow := Some(shadow.value[page := data[base..base + PAGE]]);
        }
      }
      data[addr] := v;
    }

    /** Locks an address to a value behind the barrier's back. */
    method Freeze(addr: Word, v: Byte)
      requires Valid()
      modifies this`frozen, data
      ensures Contents() == old(Contents())[addr := v] && frozen == old(frozen) + {addr}
    {
      data[addr] := v;
      frozen := frozen + {addr};
    }

    method Unfreeze(addr: Word)
      modifies this`frozen
      ensures frozen == old(frozen) - {addr}
    {
      frozen := frozen - {addr};
    }

    method TakeShadow() returns (pages: Pages)
      modifies this`shadow
      ensures pages == if old(shadow).Some? then old(shadow).value else map[]
      ensures shadow == if old(shadow).Some? then Some(map[]) else None
    {
      if shadow.None? {
        return map[];
      }
      pages := shadow.value;
      shadow := Some(map[]);
    }

    method ResetShadow()
      modifies this`shadow
      ensures shadow == if old(shadow).Some? then Some(map[]) else None
    {
      if shadow.Some? {
        shadow := Some(map[]);
      }
    }

    /** Copies the page images back, in whatever order the map yields them. */
    method CopyBack(pages: Pages)
      requires Valid()
      modifies data
      ensures Contents() == ApplyPages(old(Contents()), pages)
    {
      ghost var was := Contents();
      var left := pages.Keys;
      while left != {}
        invariant left <= pages.Keys
        invariant Contents() == ApplyPages(was, map p | p in pages && p !in left :: pages[p])
        decreases |left|
      {
        var p :| p in left;
        CopyPage(p, pages[p]);
        ghost var now := Contents();
        left := left - {p};
        assert now == ApplyPages(was, map q | q in pages && q !in left :: pages[q]);
      }
      assert (map p | p in pages && p !in left :: pages[p]) == pages;
    }

    method CopyPage(p: Byte, image: Page)
      requires Valid()
      modifies data
      ensures Contents() == ApplyPages(old(Contents()), map[p := image])
    {
      var base := p * PAGE;
      forall i | 0 <= i < PAGE {
        data[base + i] := image[i];
      }
      forall a: Word | PageOf(a) == p ensures a == base + a % PAGE {
      }
    }
  }

  class Processor {
    var a: Byte
    var x: Byte
    var y: Byte
    var sp: Byte
    var p: Byte
    var pc: Word
    var cycles: nat
    var halted: bool
    var extraCycles: int
    var irqLine: bool
    var nmiPending: bool

    function Registers(): Regs
      reads this
    {
      Regs(a, x, y, sp, p, pc, cycles, halted, extraCycles, irqLine, nmiPending)
    }

    constructor (r: Regs)
      ensures Registers() == r
    {
      a, x, y, sp, p, pc := r.a, r.x, r.y, r.sp, r.p, r.pc;
      cycles, halted, extraCycles := r.cycles, r.halted, r.extraCycles;
      irqLine, nmiPending := r.irqLine, r.nmiPending;
    }

    method Load(r: Regs)
      modifies this
      ensures Registers() == r
    {
      a, x, y, sp, p, pc := r.a, r.x, r.y, r.sp, r.p, r.pc;
      cycles, halted, extraCycles := r.cycles, r.halted, r.extraCycles;
      irqLine, nmiPending := r.irqLine, r.nmiPending;
    }

    /** Registers and every page of RAM. */
    method SnapshotFull(ram: Ram) returns (s: Snapshot)
      requires ram.Valid()
      ensures s == Snapshot(Registers(), AllPages(ram.Contents()), None)
    {
      var pages: Pages := map[];
      for i := 0 to PAGE
        invariant pages == map q: Byte | 0 <= q < i :: PageImage(ram.Contents(), q)
      {
        var base := i * PAGE;
        var image: Page := ram.data[base..base + PAGE];
        pages := pages[i := image];
      }
      s := Snapshot(Registers(), pages, None);
    }

    /** Registers and page images go back; the shadow epoch restarts. */
    method Restore(s: Snapshot, ram: Ram)
      requires ram.Valid()
      modifies this, ram`shadow, ram.data
      ensures Registers() == s.regs
      ensures ram.Contents() == ApplyPages(old(ram.Contents()), s.pages)
      ensures ram.shadow == if old(ram.shadow).Some? then Some(map[]) else None
    {
      Load(s.regs);
      ram.CopyBack(s.pages);
      ram.ResetShadow();
    }

    method Reset(ram: Ram)
      requires ram.Valid()
      modifies this
      ensures Registers() == ResetState(State(old(Registers()), ram.Contents(), map[])).regs
    {
      a, x, y := 0, 0, 0;
      sp := 0xFD;
      p := FLAG_U + FLAG_I;
      pc := WordOf(ram.data[RESET_VECTOR], ram.data[RESET_VECTOR + 1]);
      cycles, halted := 7, false;
    }
  }

  class Model {
    const cpu: Processor
    const ram: Ram
    /** What one instruction does; the freeze set in it is the RAM's. */
    const program: Cpu
    var devices: Devices
    const rewind: SnapshotRing
    var keyframes: KeyframeRing
    var stepCount: nat
    var replaying: bool

    ghost predicate Valid()
      reads this, ram, rewind, keyframes
    {
      && ram.Valid() && ram.shadow.Some? && ram.frozen == program.frozen
      && rewind.Valid() && keyframes.Valid()
    }

    ghost function Repr(): set<object>
      reads this
    {
      {this, cpu, ram, ram.data, rewind, rewind.buf, keyframes, keyframes.buf}
    }

    function Live(): State
      requires ram.Valid()
      reads this, cpu, ram, ram.data
    {
      State(cpu.Registers(), ram.Contents(), devices)
    }

    ghost function Abs(): Session
      requires Valid()
      reads this, cpu, ram, ram.data, rewind, rewind.buf, keyframes, keyframes.buf
    {
      Session(Live(), stepCount, rewind.Contents(), rewind.cap, keyframes.Contents(), keyframes.cap)
    }

    constructor (start: State, program: Cpu, ringCap: nat, budgetMb: nat)
      requires ringCap > 0 && budgetMb > 0
      ensures Valid() && !replaying && fresh(Repr())
      ensures Abs() == Fresh(start, ringCap, KeyframeCap(budgetMb * MIB))
    {
      cpu := new Processor(start.regs);
      ram := new Ram();
      this.program := program;
      devices := start.devices;
      rewind := new SnapshotRing(ringCap);
      keyframes := new KeyframeRing(budgetMb * MIB);
      stepCount, replaying := 0, false;
      new;
      forall i | 0 <= i < RAM_SIZE {
        ram.data[i] := start.ram[i];
      }
      ram.frozen := program.frozen;
      ram.EnableShadow();
      assert ram.Contents() == start.ram;
    }

    /** One instruction: its writes pass the barrier one by one. */
    method Execute()
      requires Valid()
      modifies this`devices, cpu, ram`shadow, ram.data
      ensures Valid()
      ensures var was := old(Live());
              && cpu.Registers() == program.execute(was).regs
              && devices == KeepWired(was.devices, program.execute(was).devices)
              && ram.Epoch() == WriteAll(old(ram.Epoch()), program.frozen, program.execute(was).writes)
    {
      var o := program.execute(Live());
      ghost var before := ram.Epoch();
      var left := o.writes;
      while left != []
        invariant ram.Valid() && ram.shadow.Some? && ram.frozen == program.frozen
        invariant devices == old(devices)
        invariant WriteAll(ram.Epoch(), program.frozen, left) == WriteAll(before, program.frozen, o.writes)
        decreases |left|
      {
        ram.Write(left[0].addr, left[0].value);
        assert Machine.Write(left[0].addr, left[0].value) == left[0];
        left := left[1..];
      }
      cpu.Load(o.regs);
      devices := KeepWired(devices, o.devices);
    }

    /** The capture protocol around one instruction, shared by stepping and replay. */
    method RecordStep()
      requires Valid()
      modifies this`devices, this`stepCount, cpu, ram`shadow, ram.data, rewind, rewind.buf
      ensures Valid()
      ensures Abs() == Record(program, old(Abs()))
    {
      ghost var was := Live();
      var regs := cpu.Registers();
      var saved := CaptureDevices(devices);
      ram.ResetShadow();
      Execute();
      var pages := ram.TakeShadow();
      assert Live() == Next(program, was);
      rewind.Push(Snapshot(regs, pages, saved));
      stepCount := stepCount + 1;
    }

    method PushKeyframe()
      requires Valid()
      modifies keyframes, keyframes.buf
      ensures Valid()
      ensures Abs() == WithKeyframe(old(Abs()))
    {
      var snap := cpu.SnapshotFull(ram);
      keyframes.Push(Keyframe(stepCount, snap.(devices := CaptureDevices(devices))));
    }

    method SeedKeyframe()
      requires Valid()
      modifies keyframes, keyframes.buf
      ensures Valid()
      ensures Abs() == if replaying then old(Abs()) else Rewind.SeedKeyframe(old(Abs()))
    {
      if replaying || stepCount != 0 || keyframes.size > 0 {
        return;
      }
      PushKeyframe();
    }

    method MaybeKeyframe()
      requires Valid()
      modifies keyframes, keyframes.buf
      ensures Valid()
      ensures Abs() == if replaying then old(Abs()) else Rewind.MaybeKeyframe(old(Abs()))
    {
      if replaying {
        return;
      }
      if stepCount % INTERVAL != 0 {
        return;
      }
      PushKeyframe();
    }

    method Step()
      requires Valid() && !replaying
      modifies this`devices, this`stepCount, cpu, ram`shadow, ram.data, rewind, rewind.buf, keyframes, keyframes.buf
      ensures Valid()
      ensures Abs() == StepForward(program, old(Abs()))
    {
      SeedKeyframe();
      RecordStep();
      MaybeKeyframe();
    }

    method RestoreFrom(s: Snapshot)
      requires Valid()
      modifies this`devices, cpu, ram`shadow, ram.data
      ensures Valid()
      ensures Live() == Restored(old(Live()), s)
    {
      cpu.Restore(s, ram);
      devices := RestoreDevices(devices, s.devices);
    }

    /** The `<` key. */
    method Back()
      requires Valid()
      modifies this`devices, this`stepCount, cpu, ram`shadow, ram.data, rewind
      ensures Valid()
      ensures Abs() == StepBack(old(Abs()))
    {
      if rewind.size == 0 {
        return;
      }
      var s := rewind.Pop();
      RestoreFrom(s.value);
      if stepCount > 0 {
        stepCount := stepCount - 1;
      }
    }

    /** The fast path: pop one delta after another. */
    method PopDeltas(delta: nat)
      requires Valid() && delta <= |rewind.Contents()|
      modifies this`devices, cpu, ram`shadow, ram.data, rewind
      ensures Valid()
      ensures Abs() == PopMany(old(Abs()), delta)
    {
      ghost var start := Abs();
      for i := 0 to delta
        invariant Valid()
        invariant delta - i <= |rewind.Contents()|
        invariant PopMany(Abs(), delta - i) == PopMany(start, delta)
      {
        ghost var now := Abs();
        var s := rewind.Pop();
        RestoreFrom(s.value);
        assert Abs() == PopFine(now);
      }
    }

    /** The deep path: restore the keyframe, then run forward to the target. */
    method ReplayFrom(kf: Keyframe, target: nat)
      requires Valid()
      modifies this`devices, this`stepCount, this`replaying, cpu, ram`shadow, ram.data, rewind, rewind.buf
      ensures Valid() && !replaying
      ensures Abs() == Replay(program, AtKeyframe(old(Abs()), kf), target)
    {
      ghost var start := Abs();
      RestoreFrom(kf.snap);
      stepCount := kf.step;
      rewind.Reset();
      replaying := true;
      while stepCount < target
        invariant Valid()
        invariant Replay(program, Abs(), target) == Replay(program, AtKeyframe(start, kf), target)
        decreases target - stepCount
      {
        RecordStep();
      }
      replaying := false;
    }

    method RewindToStep(target: nat) returns (report: Report)
      requires Valid() && !replaying
      modifies this`devices, this`stepCount, this`replaying, cpu, ram`shadow, ram.data, rewind, rewind.buf
      ensures Valid() && !replaying
      ensures (Abs(), report) == RewindTo(program, old(Abs()), target)
    {
      if target >= stepCount {
        return AlreadyThere;
      }
      var delta := stepCount - target;
      if delta <= rewind.size {
        PopDeltas(delta);
        stepCount := target;
        return Popped;
      }
      var kf := keyframes.FindNearest(target);
      if kf.None? {
        return BeyondReach;
      }
      ReplayFrom(kf.value, target);
      report := Replayed(if kf.value.step <= target then target - kf.value.step else 0);
    }

    /** `:rewind n`. */
    method RewindBack(n: nat) returns (report: Report)
      requires Valid() && !replaying
      modifies this`devices, this`stepCount, this`replaying, cpu, ram`shadow, ram.data, rewind, rewind.buf
      ensures Valid() && !replaying
      ensures (Abs(), report) == RewindCommand(program, old(Abs()), n)
    {
      if n == 0 {
        return AlreadyThere;
      }
      var back := n;
      if back > stepCount {
        back := stepCount;
      }
      report := RewindToStep(stepCount - back);
    }

    /** `:rewind-budget mb` replaces the keyframe ring. */
    method RewindBudget(mb: int)
      requires Valid() && !replaying
      modifies this`keyframes
      ensures Valid() && fresh(Repr() - old(Repr()))
      ensures Abs() == SetBudget(old(Abs()), mb)
    {
      if mb < 1 {
        return;
      }
      var clamped := mb;
      if clamped > MAX_BUDGET_MB {
        clamped := MAX_BUDGET_MB;
      }
      keyframes := NewKeyframeRing(clamped * MIB);
      SeedKeyframe();
    }

    /** The `R` key. */
    method ResetMachine()
      requires Valid()
      modifies this`stepCount, cpu, rewind, keyframes
      ensures Valid()
      ensures Abs() == ResetSession(old(Abs()))
    {
      cpu.Reset(ram);
      rewind.Reset();
      keyframes.Reset();
      stepCount := 0;
    }

    method Perform(c: Command)
      requires Valid() && !replaying
      modifies this, Repr()
      ensures Valid() && !replaying && fresh(Repr() - old(Repr()))
      ensures Abs() == Exec(program, old(Abs()), c)
    {
      match c
      case Step => Step();
      case Back => Back();
      case RewindBy(n) => var _ := RewindBack(n);
      case Reset => ResetMachine();
      case Budget(mb) => RewindBudget(mb);
    }

    /** Any list of commands leaves the objects where the timeline says they should be. */
    method PerformAll(cs: seq<Command>, ghost t: Timeline)
      requires Valid() && !replaying
      requires Inv(program, Abs(), t)
      modifies this, Repr()
      ensures Valid() && !replaying
      ensures Abs() == Run(program, old(Abs()), cs)
      ensures var t' := RunTimeline(program, old(Abs()), t, cs);
              |t'| == stepCount + 1 && Live() == t'[stepCount]
    {
      ghost var start := Abs();
      RunStaysOnTimeline(program, start, t, cs);
      var left := cs;
      while left != []
        invariant Valid() && !replaying && fresh(Repr() - old(Repr()))
        invariant Run(program, Abs(), left) == Run(program, start, cs)
        decreases |left|
      {
        Perform(left[0]);
        left := left[1..];
      }
    }
  }
}
