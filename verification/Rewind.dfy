/** Time travel on values: what each rewind command does to the debugger session,
    next to a reference timeline that just lists the states executed so far. */
module Rewind {
  import opened Basics
  import opened Machine

  const INTERVAL := 4096
  const KEYFRAME_BYTES := 0x1_0000
  const MAX_BUDGET_MB := 1024
  const MIB := 0x10_0000

  /** `devices` is None when no device is wired. */
  datatype Snapshot = Snapshot(regs: Regs, pages: Pages, devices: Option<Devices>)

  datatype Keyframe = Keyframe(step: nat, snap: Snapshot)

  /** Both rings list their entries oldest first. */
  datatype Session = Session(live: State, stepCount: nat, fine: seq<Snapshot>, fineCap: nat,
                             keyframes: seq<Keyframe>, keyCap: nat)

  datatype Command = Step | Back | RewindBy(n: nat) | Reset | Budget(mb: int)

  // ---------- rings ----------

  /** Push into a bounded ring: a full ring drops its oldest entry. */
  function Pushed<T>(q: seq<T>, x: T, cap: nat): seq<T> {
    if cap == 0 then q
    else if |q| < cap then q + [x]
    else q[|q| - cap + 1..] + [x]
  }

  /** The newest entry whose step is at most `target`, scanning from the newest. */
  function Nearest(kfs: seq<Keyframe>, target: nat): Option<Keyframe> {
    if kfs == [] then None
    else if kfs[|kfs| - 1].step <= target then Some(kfs[|kfs| - 1])
    else Nearest(kfs[..|kfs| - 1], target)
  }

  /** Slots of a keyframe ring with a positive byte budget. */
  function KeyframeCap(budgetBytes: nat): nat {
    if budgetBytes < KEYFRAME_BYTES then 1 else budgetBytes / KEYFRAME_BYTES
  }

  // ---------- snapshots ----------

  function CaptureDevices(d: Devices): Option<Devices> {
    if d == map[] then None else Some(d)
  }

  function RestoreDevices(d: Devices, saved: Option<Devices>): Devices {
    match saved
    case None => d
    case Some(m) => KeepWired(d, m)
  }

  function AllPages(m: Memory): Pages {
    map p: Byte | 0 <= p < PAGE :: PageImage(m, p)
  }

  function FullSnapshot(s: State): Snapshot {
    Snapshot(s.regs, AllPages(s.ram), CaptureDevices(s.devices))
  }

  /** The snapshot pushed for the instruction executed from `s`. */
  function StepSnapshot(cpu: Cpu, s: State): Snapshot {
    Snapshot(s.regs, Epoch(cpu, s).shadow, CaptureDevices(s.devices))
  }

  function Restored(s: State, snap: Snapshot): State {
    State(snap.regs, ApplyPages(s.ram, snap.pages), RestoreDevices(s.devices, snap.devices))
  }

  // ---------- commands ----------

  function WithKeyframe(s: Session): Session {
    s.(keyframes := Pushed(s.keyframes, Keyframe(s.stepCount, FullSnapshot(s.live)), s.keyCap))
  }

  function SeedKeyframe(s: Session): Session {
    if s.stepCount == 0 && s.keyframes == [] then WithKeyframe(s) else s
  }

  function MaybeKeyframe(s: Session): Session {
    if s.stepCount % INTERVAL == 0 then WithKeyframe(s) else s
  }

  /** One instruction with its fine snapshot, as in replay. */
  function Record(cpu: Cpu, s: Session): Session {
    s.(live := Next(cpu, s.live),
       stepCount := s.stepCount + 1,
       fine := Pushed(s.fine, StepSnapshot(cpu, s.live), s.fineCap))
  }

  function StepForward(cpu: Cpu, s: Session): Session {
    MaybeKeyframe(Record(cpu, SeedKeyframe(s)))
  }

  function PopFine(s: Session): Session
    requires s.fine != []
  {
    s.(live := Restored(s.live, s.fine[|s.fine| - 1]), fine := s.fine[..|s.fine| - 1])
  }

  function StepBack(s: Session): Session {
    if s.fine == [] then s
    else
      var p := PopFine(s);
      if s.stepCount > 0 then p.(stepCount := s.stepCount - 1) else p
  }

  function PopMany(s: Session, delta: nat): Session
    requires delta <= |s.fine|
    decreases delta
  {
    if delta == 0 then s else PopMany(PopFine(s), delta - 1)
  }

  function Replay(cpu: Cpu, s: Session, target: nat): Session
    decreases target - s.stepCount
  {
    if s.stepCount < target then Replay(cpu, Record(cpu, s), target) else s
  }

  datatype Report = AlreadyThere | Popped | BeyondReach | Replayed(steps: nat)

  function AtKeyframe(s: Session, kf: Keyframe): Session {
    s.(live := Restored(s.live, kf.snap), stepCount := kf.step, fine := [])
  }

  function RewindTo(cpu: Cpu, s: Session, target: nat): (Session, Report) {
    if target >= s.stepCount then (s, AlreadyThere)
    else if s.stepCount - target <= |s.fine| then
      (PopMany(s, s.stepCount - target).(stepCount := target), Popped)
    else
      match Nearest(s.keyframes, target)
      case None => (s, BeyondReach)
      case Some(kf) =>
        (Replay(cpu, AtKeyframe(s, kf), target), Replayed(if kf.step <= target then target - kf.step else 0))
  }

  /** Where `:rewind n` aims: the count is clamped to the steps taken. */
  function RewindTarget(s: Session, n: nat): nat {
    if n > s.stepCount then 0 else s.stepCount - n
  }

  /** `:rewind 0` is rejected as a bad count; the report is then AlreadyThere. */
  function RewindCommand(cpu: Cpu, s: Session, n: nat): (Session, Report) {
    if n == 0 then (s, AlreadyThere) else RewindTo(cpu, s, RewindTarget(s, n))
  }

  function SetBudget(s: Session, mb: int): Session {
    if mb < 1 then s
    else
      var clamped := if mb > MAX_BUDGET_MB then MAX_BUDGET_MB else mb;
      SeedKeyframe(s.(keyframes := [], keyCap := KeyframeCap(clamped * MIB)))
  }

  function ResetSession(s: Session): Session {
    s.(live := ResetState(s.live), stepCount := 0, fine := [], keyframes := [])
  }

  function Exec(cpu: Cpu, s: Session, c: Command): Session {
    match c
    case Step => StepForward(cpu, s)
    case Back => StepBack(s)
    case RewindBy(n) => RewindCommand(cpu, s, n).0
    case Reset => ResetSession(s)
    case Budget(mb) => SetBudget(s, mb)
  }

  /** The session a freshly built Model starts with. */
  function Fresh(s: State, fineCap: nat, keyCap: nat): Session {
    Session(s, 0, [], fineCap, [], keyCap)
  }

  // ---------- the reference timeline ----------

  type Timeline = t: seq<State> | t != []
    ghost witness [State(Regs(0, 0, 0, 0, 0, 0, 0, false, 0, false, false), seq(RAM_SIZE, _ => 0), map[])]

  function Last(t: Timeline): State {
    t[|t| - 1]
  }

  /** Moves of the reference machine, which simply remembers every state. A command that the
      session turns down leaves the timeline alone. */
  function Travel(cpu: Cpu, s: Session, t: Timeline, c: Command): Timeline {
    match c
    case Step => t + [Next(cpu, Last(t))]
    case Back => if s.fine == [] || |t| == 1 then t else t[..|t| - 1]
    case RewindBy(n) =>
      if RewindCommand(cpu, s, n).1 in {AlreadyThere, BeyondReach} then t
      else if n >= |t| then t[..1]
      else t[..|t| - n]
    case Reset => [ResetState(Last(t))]
    case Budget(_) => t
  }

  function Run(cpu: Cpu, s: Session, cs: seq<Command>): Session
    decreases |cs|
  {
    if cs == [] then s else Run(cpu, Exec(cpu, s, cs[0]), cs[1..])
  }

  function RunTimeline(cpu: Cpu, s: Session, t: Timeline, cs: seq<Command>): Timeline
    decreases |cs|
  {
    if cs == [] then t else RunTimeline(cpu, Exec(cpu, s, cs[0]), Travel(cpu, s, t, cs[0]), cs[1..])
  }
}
