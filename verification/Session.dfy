/** A debug-adapter session as interleaved threads: the request dispatcher, the run-loop
    goroutines that `continue` spawns, and (when a CPU mutex is shared) a terminal UI. */
module Session {
  import opened Basics

  datatype Request = Continue | AutoStart | Pause | Disconnect | StepIn

  /** Where the dispatcher stands inside the current request. */
  datatype Dispatcher =
    | Idle
    | Locking(r: Request)
    | CheckRunning(r: Request)
    | ClearPause(r: Request)
    | MakeChannel(r: Request)
    | SetRunning(r: Request)
    | Spawn(r: Request)
    | SetPause(r: Request)
    | Waiting(channel: nat)
    | Stepping
    | Leaving(r: Request)
    | Terminated

  /** Where a run loop stands. `CloseDone` lies between clearing `running` and closing the channel. */
  datatype Loop = Install | Check | WantLock | StepCpu | WantStateLock | ReadState | SendState
                | SendStopped | RemoveHook | ClearRunning | CloseDone | Gone

  datatype Owner = Free | ByDispatcher | ByLoop(i: nat) | ByTui

  /** `mutex`: a CPU mutex is shared with the UI. `atomicExit`: a loop clears `running` and closes
      its channel in one step, which the code does not do. */
  datatype Config = Config(mutex: bool, atomicExit: bool)

  /** `closes[c]` counts how often channel c was closed; `runDone` is the newest channel's index. */
  datatype State = State(running: bool, pauseRequested: bool, runDone: nat, closes: seq<nat>,
                         loops: seq<Loop>, disp: Dispatcher, owner: Owner, stopped: nat)

  /** What an iteration of the run loop decides once its step is done. */
  datatype Choice = Halt | Stream | GoOn

  datatype Action = Receive(r: Request) | Dispatch | Advance(i: nat, c: Choice) | TuiLock | TuiUnlock

  const START := State(false, false, 0, [], [], Idle, Free, 0)

  // ---------- the dispatcher ----------

  predicate NeedsLock(r: Request) {
    r != Continue && r != Pause
  }

  predicate MayTake(cfg: Config, s: State) {
    !cfg.mutex || s.owner == Free
  }

  function Taken(cfg: Config, s: State, o: Owner): State {
    if cfg.mutex then s.(owner := o) else s
  }

  function Released(cfg: Config, s: State): State {
    if cfg.mutex then s.(owner := Free) else s
  }

  /** Leaves the request: the deferred unlock, on requests that locked. */
  function Left(cfg: Config, s: State, r: Request): State {
    (if NeedsLock(r) then Released(cfg, s) else s).(disp := if r == Disconnect then Terminated else Idle)
  }

  function DispatchStep(cfg: Config, s: State): Option<State> {
    match s.disp
    case Idle => None
    case Terminated => None
    case Locking(r) =>
      if MayTake(cfg, s) then Some(Taken(cfg, s, ByDispatcher).(disp := CheckRunning(r))) else None
    case CheckRunning(r) =>
      Some(s.(disp := match r
              case Continue => if s.running then Leaving(r) else ClearPause(r)
              case AutoStart => if s.running then Leaving(r) else ClearPause(r)
              case Pause => if s.running then SetPause(r) else Leaving(r)
              case Disconnect => if s.running then SetPause(r) else Leaving(r)
              case StepIn => if s.running then Leaving(r) else Stepping))
    case ClearPause(r) => Some(s.(pauseRequested := false, disp := MakeChannel(r)))
    case MakeChannel(r) => Some(s.(runDone := |s.closes|, closes := s.closes + [0], disp := SetRunning(r)))
    case SetRunning(r) => Some(s.(running := true, disp := Spawn(r)))
    case Spawn(r) => Some(s.(loops := s.loops + [Install], disp := Leaving(r)))
    case SetPause(r) =>
      Some(s.(pauseRequested := true, disp := if r == Disconnect then Waiting(s.runDone) else Leaving(r)))
    case Waiting(c) =>
      if c < |s.closes| && s.closes[c] > 0 then Some(s.(disp := Leaving(Disconnect))) else None
    case Stepping => Some(s.(disp := Leaving(StepIn)))
    case Leaving(r) => Some(Left(cfg, s, r))
  }

  // ---------- a run loop ----------

  function Closed(s: State): State {
    if s.runDone < |s.closes| then s.(closes := s.closes[s.runDone := s.closes[s.runDone] + 1]) else s
  }

  function At(s: State, i: nat, pc: Loop): State
    requires i < |s.loops|
  {
    s.(loops := s.loops[i := pc])
  }

  /** Where a loop goes next. */
  function Onward(cfg: Config, l: Loop, pauseRequested: bool, c: Choice): Loop {
    match l
    case Install => Check
    case Check => if pauseRequested then SendStopped else WantLock
    case WantLock => StepCpu
    case StepCpu => (match c case Halt => SendStopped case Stream => WantStateLock case GoOn => Check)
    case WantStateLock => ReadState
    case ReadState => SendState
    case SendState => Check
    case SendStopped => RemoveHook
    case RemoveHook => ClearRunning
    case ClearRunning => if cfg.atomicExit then Gone else CloseDone
    case CloseDone => Gone
    case Gone => Gone
  }

  predicate WantsLock(l: Loop) {
    l.WantLock? || l.WantStateLock?
  }

  function LoopStep(cfg: Config, s: State, i: nat, c: Choice): Option<State>
    requires i < |s.loops|
  {
    var l := s.loops[i];
    if l.Gone? || (WantsLock(l) && !MayTake(cfg, s)) then None
    else
      var s' := At(s, i, Onward(cfg, l, s.pauseRequested, c));
      Some(match l
           case WantLock => Taken(cfg, s', ByLoop(i))
           case WantStateLock => Taken(cfg, s', ByLoop(i))
           case StepCpu => Released(cfg, s')
           case ReadState => Released(cfg, s')
           case SendStopped => s'.(stopped := s.stopped + 1)
           case ClearRunning => if cfg.atomicExit then Closed(s'.(running := false)) else s'.(running := false)
           case CloseDone => Closed(s')
           case _ => s')
  }

  /** One step of one thread; None when that thread cannot move. */
  function Next(cfg: Config, s: State, a: Action): Option<State> {
    match a
    case Receive(r) =>
      if s.disp == Idle then Some(s.(disp := if NeedsLock(r) then Locking(r) else CheckRunning(r))) else None
    case Dispatch => DispatchStep(cfg, s)
    case Advance(i, c) => if i < |s.loops| then LoopStep(cfg, s, i, c) else None
    case TuiLock => if cfg.mutex && s.owner == Free then Some(s.(owner := ByTui)) else None
    case TuiUnlock => if cfg.mutex && s.owner == ByTui then Some(s.(owner := Free)) else None
  }

  /** The state after a whole interleaving, or None when some step was not possible. */
  function Exec(cfg: Config, s: State, acts: seq<Action>): Option<State>
    decreases |acts|
  {
    if acts == [] then Some(s)
    else
      match Next(cfg, s, acts[0])
      case None => None
      case Some(s') => Exec(cfg, s', acts[1..])
  }

  /** A start request passes its check while an old loop still has its channel to close. */
  predicate Overtakes(s: State, a: Action) {
    && a == Dispatch && s.disp.CheckRunning? && s.disp.r in {Continue, AutoStart} && !s.running
    && CloseDone in s.loops
  }

  /** No start request overtakes an exiting loop. With an atomic exit that cannot happen. */
  predicate Careful(cfg: Config, s: State, acts: seq<Action>)
    decreases |acts|
  {
    acts == [] ||
    (!Overtakes(s, acts[0]) &&
     match Next(cfg, s, acts[0])
     case None => true
     case Some(s') => Careful(cfg, s', acts[1..]))
  }
}
