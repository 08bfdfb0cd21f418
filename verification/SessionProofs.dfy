/** Safety of every careful interleaving, progress of disconnect, and the runs that break both. */
module SessionProofs {
  import opened Basics
  import opened Session

  // ---------- the invariant ----------

  predicate Starting(d: Dispatcher) {
    d.ClearPause? || d.MakeChannel? || d.SetRunning? || d.Spawn?
  }

  /** A channel exists whose loop has not been spawned yet. */
  predicate Unspawned(d: Dispatcher) {
    d.SetRunning? || d.Spawn?
  }

  predicate StartRequest(r: Request) {
    r == Continue || r == AutoStart
  }

  predicate Alive(l: Loop) {
    l != Gone && l != CloseDone
  }

  predicate HasStopped(l: Loop) {
    l.RemoveHook? || l.ClearRunning? || l.CloseDone? || l.Gone?
  }

  /** Loop i serves channel i; only the newest loop may still be running. */
  ghost predicate LoopsInOrder(s: State) {
    var n := |s.loops|;
    && |s.closes| == (if Unspawned(s.disp) then n + 1 else n)
    && (|s.closes| > 0 ==> s.runDone == |s.closes| - 1)
    && (forall i | 0 <= i < n - 1 :: s.loops[i] == Gone)
    && (forall i | 0 <= i < n :: s.closes[i] == if s.loops[i] == Gone then 1 else 0)
    && (Unspawned(s.disp) ==> s.closes[n] == 0)
    && (Starting(s.disp) ==> (forall i | 0 <= i < n :: s.loops[i] == Gone))
    && s.running == (s.disp.Spawn? || (n > 0 && Alive(s.loops[n - 1])))
  }

  ghost predicate StopsCounted(s: State) {
    var n := |s.loops|;
    s.stopped == if n > 0 && !HasStopped(s.loops[n - 1]) then n - 1 else n
  }

  predicate HoldsLock(d: Dispatcher) {
    match d
    case Idle => false
    case Terminated => false
    case Locking(_) => false
    case CheckRunning(r) => NeedsLock(r)
    case ClearPause(r) => NeedsLock(r)
    case MakeChannel(r) => NeedsLock(r)
    case SetRunning(r) => NeedsLock(r)
    case Spawn(r) => NeedsLock(r)
    case SetPause(r) => NeedsLock(r)
    case Waiting(_) => true
    case Stepping => true
    case Leaving(r) => NeedsLock(r)
  }

  ghost predicate LockKept(cfg: Config, s: State) {
    && (!cfg.mutex ==> s.owner == Free)
    && (cfg.mutex ==> (s.owner == ByDispatcher <==> HoldsLock(s.disp)))
    && (cfg.mutex ==> forall i | 0 <= i < |s.loops| :: InsideLock(s.loops[i]) ==> s.owner == ByLoop(i))
    && (s.owner.ByLoop? ==> s.owner.i < |s.loops| && InsideLock(s.loops[s.owner.i]))
  }

  /** What the dispatcher's own progress has established. */
  ghost predicate DispatcherSound(s: State) {
    var n := |s.loops|;
    && (s.disp.Locking? ==> NeedsLock(s.disp.r))
    && (Starting(s.disp) ==> StartRequest(s.disp.r))
    && (s.disp.SetPause? ==> s.disp.r in {Pause, Disconnect} && n > 0)
    && (s.disp.Waiting? ==> n > 0 && s.disp.channel == n - 1 && (Alive(s.loops[n - 1]) ==> s.pauseRequested))
    && (s.disp.Stepping? || s.disp == Leaving(Disconnect) || s.disp.Terminated? ==> !s.running)
  }

  ghost predicate Inv(cfg: Config, s: State) {
    LoopsInOrder(s) && StopsCounted(s) && LockKept(cfg, s) && DispatcherSound(s)
    && (cfg.atomicExit ==> CloseDone !in s.loops)
  }

  /** Nobody starts a run while an old loop is around. */
  lemma StartFindsAllGone(cfg: Config, s: State)
    requires Inv(cfg, s) && !Overtakes(s, Dispatch)
    requires s.disp.CheckRunning? && StartRequest(s.disp.r) && !s.running
    ensures forall i | 0 <= i < |s.loops| :: s.loops[i] == Gone
  {
    forall i | 0 <= i < |s.loops| ensures s.loops[i] == Gone {
      assert s.loops[i] in s.loops;
    }
  }

  /** Away from the start sequence the dispatcher leaves runs and channels alone. */
  lemma DispatchFrame(cfg: Config, s: State)
    requires DispatchStep(cfg, s).Some?
    ensures var s' := DispatchStep(cfg, s).value;
            && (!s.disp.MakeChannel? ==> s'.closes == s.closes && s'.runDone == s.runDone)
            && (!s.disp.Spawn? ==> s'.loops == s.loops)
            && (!s.disp.SetRunning? ==> s'.running == s.running)
            && (!s.disp.SetPause? && !s.disp.ClearPause? ==> s'.pauseRequested == s.pauseRequested)
            && s'.stopped == s.stopped
  {
  }

  /** The stages of a start follow each other. */
  lemma DispatchStages(cfg: Config, s: State)
    requires DispatchStep(cfg, s).Some?
    ensures var s' := DispatchStep(cfg, s).value;
            && (s'.disp.ClearPause? ==> s.disp.CheckRunning? && StartRequest(s.disp.r) && !s.running)
            && (s'.disp.MakeChannel? <==> s.disp.ClearPause?)
            && (s'.disp.SetRunning? <==> s.disp.MakeChannel?)
            && (s'.disp.Spawn? <==> s.disp.SetRunning?)
            && (s.disp.MakeChannel? ==> s'.closes == s.closes + [0] && s'.runDone == |s.closes|)
            && (s.disp.SetRunning? ==> s'.running)
            && (s.disp.Spawn? ==> s'.loops == s.loops + [Install])
  {
  }

  lemma DispatchKeepsOrder(cfg: Config, s: State)
    requires Inv(cfg, s) && !Overtakes(s, Dispatch) && DispatchStep(cfg, s).Some?
    ensures LoopsInOrder(DispatchStep(cfg, s).value) && StopsCounted(DispatchStep(cfg, s).value)
  {
    DispatchFrame(cfg, s);
    DispatchStages(cfg, s);
    if s.disp.CheckRunning? && StartRequest(s.disp.r) && !s.running {
      StartFindsAllGone(cfg, s);
    }
  }

  lemma DispatchPauses(cfg: Config, s: State)
    requires DispatchStep(cfg, s).Some?
    ensures var s' := DispatchStep(cfg, s).value;
            && (s'.disp.SetPause? ==> s'.disp.r in {Pause, Disconnect} && s.running && s.disp.CheckRunning?)
            && (s'.disp.Waiting? ==>
                  s.disp == SetPause(Disconnect) && s'.pauseRequested && s'.disp.channel == s.runDone)
            && (s'.disp.Stepping? ==> s.disp.CheckRunning? && !s.running)
            && !s'.disp.Locking?
            && (s'.disp.Terminated? ==> s.disp == Leaving(Disconnect))
  {
  }

  lemma DispatchLeaves(cfg: Config, s: State)
    requires DispatchStep(cfg, s).Some? && DispatcherSound(s)
    ensures DispatchStep(cfg, s).value.disp == Leaving(Disconnect) ==>
              || (s.disp.CheckRunning? && !s.running)
              || (s.disp.Waiting? && s.disp.channel < |s.closes| && s.closes[s.disp.channel] > 0)
  {
  }

  lemma DispatchKeepsSound(cfg: Config, s: State)
    requires Inv(cfg, s) && DispatchStep(cfg, s).Some?
    ensures DispatcherSound(DispatchStep(cfg, s).value)
  {
    DispatchFrame(cfg, s);
    DispatchStages(cfg, s);
    DispatchPauses(cfg, s);
    DispatchLeaves(cfg, s);
    StartStaysStart(cfg, s);
  }

  lemma StartStaysStart(cfg: Config, s: State)
    requires DispatchStep(cfg, s).Some?
    ensures Starting(s.disp) && Starting(DispatchStep(cfg, s).value.disp) ==>
              DispatchStep(cfg, s).value.disp.r == s.disp.r
    ensures s.disp.CheckRunning? && Starting(DispatchStep(cfg, s).value.disp) ==>
              StartRequest(DispatchStep(cfg, s).value.disp.r)
  {
  }

  /** The dispatcher holds the mutex from Locking until it leaves the request. */
  lemma DispatchLocks(cfg: Config, s: State)
    requires DispatcherSound(s) && DispatchStep(cfg, s).Some?
    ensures var s' := DispatchStep(cfg, s).value;
            && (HoldsLock(s'.disp) <==> s.disp.Locking? || (HoldsLock(s.disp) && !s.disp.Leaving?))
            && s'.owner == (if cfg.mutex && s.disp.Locking? then ByDispatcher
                            else if cfg.mutex && HoldsLock(s.disp) && s.disp.Leaving? then Free else s.owner)
            && (cfg.mutex && s.disp.Locking? ==> s.owner == Free)
  {
  }

  lemma DispatchKeepsLock(cfg: Config, s: State)
    requires Inv(cfg, s) && DispatchStep(cfg, s).Some?
    ensures LockKept(cfg, DispatchStep(cfg, s).value)
  {
    DispatchFrame(cfg, s);
    DispatchLocks(cfg, s);
    if s.disp.Spawn? {
      DispatchStages(cfg, s);
    }
  }

  lemma DispatchKeepsInv(cfg: Config, s: State)
    requires Inv(cfg, s) && !Overtakes(s, Dispatch) && DispatchStep(cfg, s).Some?
    ensures Inv(cfg, DispatchStep(cfg, s).value)
  {
    DispatchKeepsOrder(cfg, s);
    DispatchKeepsLock(cfg, s);
    DispatchKeepsSound(cfg, s);
  }

  lemma OnlyNewestMoves(cfg: Config, s: State, i: nat, c: Choice)
    requires LoopsInOrder(s) && i < |s.loops| && LoopStep(cfg, s, i, c).Some?
    ensures i == |s.loops| - 1 && s.loops[i] != Gone && s.closes[i] == 0 && !Starting(s.disp) && s.runDone == i
    ensures Alive(s.loops[i]) <==> s.running
  {
  }

  /** How one loop step rewrites the state, field by field. */
  lemma LoopStepFrame(cfg: Config, s: State, i: nat, c: Choice)
    requires LoopsInOrder(s) && i < |s.loops| && LoopStep(cfg, s, i, c).Some?
    ensures var s' := LoopStep(cfg, s, i, c).value;
            && s'.loops == s.loops[i := s'.loops[i]]
            && s'.disp == s.disp && s'.runDone == s.runDone && s'.pauseRequested == s.pauseRequested
            && s'.closes == (if s'.loops[i] == Gone then s.closes[i := 1] else s.closes)
            && s'.running == (s.running && Alive(s'.loops[i]))
            && s'.stopped == s.stopped + (if s.loops[i].SendStopped? then 1 else 0)
            && (HasStopped(s'.loops[i]) <==> s.loops[i].SendStopped? || HasStopped(s.loops[i]))
  {
    OnlyNewestMoves(cfg, s, i, c);
  }

  lemma LoopKeepsOrder(cfg: Config, s: State, i: nat, c: Choice)
    requires Inv(cfg, s) && i < |s.loops| && LoopStep(cfg, s, i, c).Some?
    ensures var s' := LoopStep(cfg, s, i, c).value; LoopsInOrder(s') && StopsCounted(s') && DispatcherSound(s')
  {
    OnlyNewestMoves(cfg, s, i, c);
    LoopStepFrame(cfg, s, i, c);
  }

  predicate InsideLock(l: Loop) {
    l.StepCpu? || l.ReadState?
  }

  lemma LoopMoves(cfg: Config, s: State, i: nat, c: Choice)
    requires i < |s.loops| && LoopStep(cfg, s, i, c).Some?
    ensures var s' := LoopStep(cfg, s, i, c).value;
            s'.loops == s.loops[i := Onward(cfg, s.loops[i], s.pauseRequested, c)]
  {
  }

  lemma LoopLocks(cfg: Config, s: State, i: nat, c: Choice)
    requires i < |s.loops| && LoopStep(cfg, s, i, c).Some?
    ensures var s' := LoopStep(cfg, s, i, c).value;
            if !cfg.mutex then s'.owner == s.owner
            else if WantsLock(s.loops[i]) then s.owner == Free && s'.owner == ByLoop(i)
            else s'.owner == if InsideLock(s.loops[i]) then Free else s.owner
  {
  }

  lemma LoopKeepsLock(cfg: Config, s: State, i: nat, c: Choice)
    requires Inv(cfg, s) && i < |s.loops| && LoopStep(cfg, s, i, c).Some?
    ensures LockKept(cfg, LoopStep(cfg, s, i, c).value)
  {
    LoopStepFrame(cfg, s, i, c);
    LoopMoves(cfg, s, i, c);
    LoopLocks(cfg, s, i, c);
  }

  lemma LoopKeepsInv(cfg: Config, s: State, i: nat, c: Choice)
    requires Inv(cfg, s) && i < |s.loops| && LoopStep(cfg, s, i, c).Some?
    ensures Inv(cfg, LoopStep(cfg, s, i, c).value)
  {
    LoopKeepsOrder(cfg, s, i, c);
    LoopKeepsLock(cfg, s, i, c);
    LoopStepFrame(cfg, s, i, c);
  }

  lemma NextKeepsInv(cfg: Config, s: State, a: Action)
    requires Inv(cfg, s) && !Overtakes(s, a)
    requires Next(cfg, s, a).Some?
    ensures Inv(cfg, Next(cfg, s, a).value)
  {
    match a
    case Dispatch => DispatchKeepsInv(cfg, s);
    case Advance(i, c) => LoopKeepsInv(cfg, s, i, c);
    case _ =>
  }

  lemma {:induction false} RunKeepsInv(cfg: Config, s: State, acts: seq<Action>)
    requires Inv(cfg, s) && Careful(cfg, s, acts)
    requires Exec(cfg, s, acts).Some?
    ensures Inv(cfg, Exec(cfg, s, acts).value)
    decreases |acts|
  {
    if acts != [] {
      NextKeepsInv(cfg, s, acts[0]);
      RunKeepsInv(cfg, Next(cfg, s, acts[0]).value, acts[1..]);
    }
  }

  // ---------- safety ----------

  /** Threads that are inside a CPU step: run loops, the dispatcher's single step, the UI. */
  function Steppers(s: State): nat {
    StepCount(s.loops) + (if s.disp.Stepping? then 1 else 0) + if s.owner.ByTui? then 1 else 0
  }

  function StepCount(loops: seq<Loop>): nat {
    if loops == [] then 0 else StepCount(loops[..|loops| - 1]) + if loops[|loops| - 1].StepCpu? then 1 else 0
  }

  lemma {:induction false} GoneDoNotStep(loops: seq<Loop>)
    requires forall i | 0 <= i < |loops| :: loops[i] == Gone
    ensures StepCount(loops) == 0
  {
    if loops != [] {
      GoneDoNotStep(loops[..|loops| - 1]);
    }
  }

  lemma StartHolds(cfg: Config)
    ensures Inv(cfg, START)
  {
  }

  lemma {:induction false} AtomicExitIsCareful(cfg: Config, s: State, acts: seq<Action>)
    requires cfg.atomicExit && Inv(cfg, s)
    ensures Careful(cfg, s, acts)
    decreases |acts|
  {
    if acts != [] && Next(cfg, s, acts[0]).Some? {
      NextKeepsInv(cfg, s, acts[0]);
      AtomicExitIsCareful(cfg, Next(cfg, s, acts[0]).value, acts[1..]);
    }
  }

  /** Every careful interleaving, in particular every one with an atomic loop exit: one thread at
      most steps the CPU, every channel is closed at most once and only by its own loop, and each
      run that was started reports `stopped` exactly once before it is over. */
  lemma CarefulRunsAreSafe(cfg: Config, acts: seq<Action>)
    requires Careful(cfg, START, acts) || cfg.atomicExit
    requires Exec(cfg, START, acts).Some?
    ensures var s := Exec(cfg, START, acts).value;
            && Inv(cfg, s)
            && Steppers(s) <= 1
            && (forall i | 0 <= i < |s.closes| :: s.closes[i] <= 1)
            && (s.disp.Idle? && !s.running && CloseDone !in s.loops ==>
                  s.stopped == |s.loops| == |s.closes| && forall i | 0 <= i < |s.closes| :: s.closes[i] == 1)
            && (s.disp == Terminated ==> !s.running)
  {
    StartHolds(cfg);
    if cfg.atomicExit {
      AtomicExitIsCareful(cfg, START, acts);
    }
    RunKeepsInv(cfg, START, acts);
    OneStepper(cfg, Exec(cfg, START, acts).value);
  }

  lemma OneStepper(cfg: Config, s: State)
    requires Inv(cfg, s)
    ensures Steppers(s) <= 1
  {
    var n := |s.loops|;
    if n > 0 {
      GoneDoNotStep(s.loops[..n - 1]);
    }
  }

  // ---------- disconnect without a mutex always completes ----------

  /** Steps left until the newest loop has closed its channel, once a pause was requested. */
  function Rank(l: Loop): nat {
    match l
    case Gone => 0
    case CloseDone => 1
    case ClearRunning => 2
    case RemoveHook => 3
    case SendStopped => 4
    case Check => 5
    case Install => 6
    case SendState => 6
    case ReadState => 7
    case WantStateLock => 8
    case StepCpu => 9
    case WantLock => 10
  }

  /** While disconnect waits, only the newest loop can move, and each move brings it nearer its
      exit; it is never stuck, so after at most ten moves the dispatcher goes on. */
  lemma WaitingMakesProgress(cfg: Config, s: State)
    requires Inv(cfg, s) && !cfg.mutex && s.disp.Waiting?
    ensures var n := |s.loops|;
            n > 0 &&
            if s.loops[n - 1] == Gone then Next(cfg, s, Dispatch).Some?
            else Next(cfg, s, Advance(n - 1, GoOn)).Some?
  {
  }

  lemma WaitingStep(cfg: Config, s: State, a: Action)
    requires Inv(cfg, s) && !cfg.mutex && s.disp.Waiting? && Next(cfg, s, a).Some?
    ensures var s' := Next(cfg, s, a).value;
            var n := |s.loops|;
            if a == Dispatch then s'.disp == Leaving(Disconnect) && !s.running
            else s'.disp == s.disp && |s'.loops| == n && Rank(s'.loops[n - 1]) < Rank(s.loops[n - 1])
  {
    if a.Advance? {
      OnlyNewestMoves(cfg, s, a.i, a.c);
    }
  }

  /** However the threads are scheduled, a disconnect that has started to wait is answered before
      eleven more steps have been taken. */
  lemma {:induction false} DisconnectCompletes(cfg: Config, s: State, acts: seq<Action>)
    requires Inv(cfg, s) && !cfg.mutex && s.disp.Waiting?
    requires Exec(cfg, s, acts).Some? && Dispatch !in acts
    ensures |acts| <= Rank(s.loops[|s.loops| - 1]) <= 10
    decreases |acts|
  {
    if acts != [] {
      var a := acts[0];
      WaitingStep(cfg, s, a);
      NextKeepsInv(cfg, s, a);
      DisconnectCompletes(cfg, Next(cfg, s, a).value, acts[1..]);
    }
  }

  // ---------- with a shared mutex it may deadlock ----------

  /** With a shared mutex, a waiting disconnect is stuck for good (no thread can move at all)
      exactly when it caught the run loop on its way to the lock. */
  lemma DeadlockExactly(cfg: Config, s: State)
    requires Inv(cfg, s) && cfg.mutex && s.disp.Waiting?
    ensures |s.loops| > 0
    ensures WantsLock(s.loops[|s.loops| - 1]) <==> forall a :: Next(cfg, s, a).None?
  {
    var n := |s.loops|;
    if s.loops[n - 1] == Gone {
      assert Next(cfg, s, Dispatch).Some?;
    } else if !WantsLock(s.loops[n - 1]) {
      assert Next(cfg, s, Advance(n - 1, GoOn)).Some?;
    } else {
      forall a ensures Next(cfg, s, a).None? {
      }
    }
  }

  /** Otherwise it completes: the loop sees the pause request before it asks for the lock again. */
  lemma {:induction false} FreeLoopLetsDisconnectGo(cfg: Config, s: State, acts: seq<Action>)
    requires Inv(cfg, s) && cfg.mutex && s.disp.Waiting?
    requires !WantsLock(s.loops[|s.loops| - 1])
    requires Exec(cfg, s, acts).Some? && Dispatch !in acts
    ensures |acts| <= Rank(s.loops[|s.loops| - 1])
    ensures var s' := Exec(cfg, s, acts).value;
            |s'.loops| == |s.loops| && s'.disp == s.disp && !WantsLock(s'.loops[|s.loops| - 1])
    decreases |acts|
  {
    if acts != [] {
      var a := acts[0];
      FreeLoopStep(cfg, s, a);
      NextKeepsInv(cfg, s, a);
      FreeLoopLetsDisconnectGo(cfg, Next(cfg, s, a).value, acts[1..]);
    }
  }

  lemma FreeLoopStep(cfg: Config, s: State, a: Action)
    requires Inv(cfg, s) && cfg.mutex && s.disp.Waiting? && a != Dispatch
    requires !WantsLock(s.loops[|s.loops| - 1]) && Next(cfg, s, a).Some?
    ensures var s' := Next(cfg, s, a).value;
            var n := |s.loops|;
            s'.disp == s.disp && |s'.loops| == n && Rank(s'.loops[n - 1]) < Rank(s.loops[n - 1])
            && !WantsLock(s'.loops[n - 1])
  {
    if a.Advance? {
      OnlyNewestMoves(cfg, s, a.i, a.c);
    }
  }

  // ---------- without an atomic exit a channel may be closed twice ----------

  lemma {:induction false} ExecAppend(cfg: Config, s: State, xs: seq<Action>, ys: seq<Action>)
    requires Exec(cfg, s, xs).Some?
    ensures Exec(cfg, s, xs + ys) == Exec(cfg, Exec(cfg, s, xs).value, ys)
    decreases |xs|
  {
    if xs == [] {
      assert xs + ys == ys;
    } else {
      assert (xs + ys)[1..] == xs[1..] + ys;
      ExecAppend(cfg, Next(cfg, s, xs[0]).value, xs[1..], ys);
    }
  }

  lemma ExecStep(cfg: Config, s: State, a: Action, rest: seq<Action>)
    requires Next(cfg, s, a).Some?
    ensures Exec(cfg, s, [a] + rest) == Exec(cfg, Next(cfg, s, a).value, rest)
  {
    assert ([a] + rest)[1..] == rest;
  }

  function Times(a: Action, n: nat): seq<Action> {
    if n == 0 then [] else [a] + Times(a, n - 1)
  }

  /** A start request has run to its end; on the requests that lock, the mutex is free again. */
  function Started(cfg: Config, s: State): State
    requires s.disp.CheckRunning?
  {
    s.(pauseRequested := false, runDone := |s.closes|, closes := s.closes + [0], running := true,
       loops := s.loops + [Install], disp := Idle,
       owner := if cfg.mutex && NeedsLock(s.disp.r) then Free else s.owner)
  }

  /** Six dispatcher steps take a start request from its check to its end. */
  lemma StartGoesThrough(cfg: Config, s: State)
    requires s.disp.CheckRunning? && StartRequest(s.disp.r) && !s.running
    ensures Exec(cfg, s, Times(Dispatch, 6)) == Some(Started(cfg, s))
  {
    var s1 := Next(cfg, s, Dispatch).value;
    var s2 := Next(cfg, s1, Dispatch).value;
    var s3 := Next(cfg, s2, Dispatch).value;
    ExecStep(cfg, s, Dispatch, Times(Dispatch, 5));
    ExecStep(cfg, s1, Dispatch, Times(Dispatch, 4));
    ExecStep(cfg, s2, Dispatch, Times(Dispatch, 3));
    assert s3 == s.(pauseRequested := false, runDone := |s.closes|, closes := s.closes + [0],
                    disp := SetRunning(s.disp.r));
    StartFinishes(cfg, s3);
  }

  lemma StartFinishes(cfg: Config, s: State)
    requires s.disp.SetRunning? && StartRequest(s.disp.r)
    ensures Exec(cfg, s, Times(Dispatch, 3))
            == Some(s.(running := true, loops := s.loops + [Install], disp := Idle,
                       owner := if cfg.mutex && NeedsLock(s.disp.r) then Free else s.owner))
  {
    var s1 := Next(cfg, s, Dispatch).value;
    var s2 := Next(cfg, s1, Dispatch).value;
    var s3 := Next(cfg, s2, Dispatch).value;
    ExecStep(cfg, s, Dispatch, Times(Dispatch, 2));
    ExecStep(cfg, s1, Dispatch, Times(Dispatch, 1));
    ExecStep(cfg, s2, Dispatch, Times(Dispatch, 0));
    assert Exec(cfg, s3, []) == Some(s3);
  }

  /** A pause needs no mutex: it sets its flag whoever holds it. */
  lemma PauseGoesThrough(cfg: Config, s: State)
    requires s.disp == Idle && s.running
    ensures Exec(cfg, s, [Receive(Pause)] + Times(Dispatch, 3)) == Some(s.(pauseRequested := true))
  {
    var s1 := s.(disp := CheckRunning(Pause));
    var s2 := s.(disp := SetPause(Pause));
    var s3 := s.(pauseRequested := true, disp := Leaving(Pause));
    var s4 := s.(pauseRequested := true);
    ExecStep(cfg, s, Receive(Pause), Times(Dispatch, 3));
    ExecStep(cfg, s1, Dispatch, Times(Dispatch, 2));
    ExecStep(cfg, s2, Dispatch, Times(Dispatch, 1));
    ExecStep(cfg, s3, Dispatch, Times(Dispatch, 0));
    assert Exec(cfg, s4, []) == Some(s4);
  }

  lemma AtAgain(s: State, i: nat, p: Loop, q: Loop)
    requires i < |s.loops|
    ensures At(At(s, i, p), i, q) == At(s, i, q)
  {
    assert s.loops[i := p][i := q] == s.loops[i := q];
  }

  /** A paused loop that has not stepped yet gets to its close in five steps and never asks for
      the mutex. */
  lemma LoopRunsOut(cfg: Config, s: State, i: nat)
    requires !cfg.atomicExit && s.pauseRequested
    requires i < |s.loops| && s.loops[i] == Install
    ensures Exec(cfg, s, Times(Advance(i, Halt), 5))
            == Some(s.(running := false, stopped := s.stopped + 1, loops := s.loops[i := CloseDone]))
  {
    var a := Advance(i, Halt);
    var s1 := At(s, i, Check);
    var s2 := At(s, i, SendStopped);
    AtAgain(s, i, Check, SendStopped);
    assert Next(cfg, s, a) == Some(s1) && Next(cfg, s1, a) == Some(s2);
    ExecStep(cfg, s, a, Times(a, 4));
    ExecStep(cfg, s1, a, Times(a, 3));
    LoopWindsUp(cfg, s, i);
  }

  lemma LoopWindsUp(cfg: Config, s: State, i: nat)
    requires !cfg.atomicExit && i < |s.loops|
    ensures Exec(cfg, At(s, i, SendStopped), Times(Advance(i, Halt), 3))
            == Some(s.(running := false, stopped := s.stopped + 1, loops := s.loops[i := CloseDone]))
  {
    var a := Advance(i, Halt);
    var s4 := At(s, i, SendStopped);
    var s5 := At(s, i, RemoveHook).(stopped := s.stopped + 1);
    var s6 := At(s, i, ClearRunning).(stopped := s.stopped + 1);
    var s7 := At(s, i, CloseDone).(stopped := s.stopped + 1, running := false);
    AtAgain(s, i, SendStopped, RemoveHook);
    AtAgain(s, i, RemoveHook, ClearRunning);
    AtAgain(s, i, ClearRunning, CloseDone);
    assert Next(cfg, s4, a) == Some(s5) && Next(cfg, s5, a) == Some(s6) && Next(cfg, s6, a) == Some(s7);
    ExecStep(cfg, s4, a, Times(a, 2));
    ExecStep(cfg, s5, a, Times(a, 1));
    ExecStep(cfg, s6, a, Times(a, 0));
    assert Exec(cfg, s7, []) == Some(s7);
  }

  /** One more step and the exiting loop closes whatever channel is newest. */
  lemma LoopCloses(cfg: Config, s: State, i: nat)
    requires i < |s.loops| && s.loops[i] == CloseDone && s.runDone < |s.closes|
    ensures Exec(cfg, s, [Advance(i, Halt)])
            == Some(s.(loops := s.loops[i := Gone], closes := s.closes[s.runDone := s.closes[s.runDone] + 1]))
  {
    var s' := Next(cfg, s, Advance(i, Halt)).value;
    ExecStep(cfg, s, Advance(i, Halt), []);
    assert [Advance(i, Halt)] + [] == [Advance(i, Halt)] && Exec(cfg, s', []) == Some(s');
  }

  /** Once a start has overtaken an exiting loop, that loop can close the new run's channel
      under it, and the new run's own close is then the second one, which is a panic. No step of
      this schedule asks for the mutex. */
  lemma OvertakingClosesTwice(cfg: Config, s: State) returns (acts: seq<Action>)
    requires !cfg.atomicExit && Inv(cfg, s) && Overtakes(s, Dispatch)
    ensures Exec(cfg, s, acts).Some?
    ensures var c := |s.closes|; c < |Exec(cfg, s, acts).value.closes| && Exec(cfg, s, acts).value.closes[c] == 2
  {
    var i :| 0 <= i < |s.loops| && s.loops[i] == CloseDone;
    var early := OvertakingClosesEarly(cfg, s, i);
    var s2 := Exec(cfg, s, early).value;
    var late := PausedRunCloses(cfg, s2, |s.loops|);
    acts := early + late;
    ExecAppend(cfg, s, early, late);
  }

  /** A run that has not stepped yet is paused and closes the newest channel. */
  lemma PausedRunCloses(cfg: Config, s: State, n: nat) returns (acts: seq<Action>)
    requires !cfg.atomicExit && s.disp == Idle && s.running
    requires n < |s.loops| && s.loops[n] == Install && s.runDone < |s.closes|
    ensures Exec(cfg, s, acts).Some?
    ensures Exec(cfg, s, acts).value.closes == s.closes[s.runDone := s.closes[s.runDone] + 1]
  {
    var a := Advance(n, Halt);
    var pause := [Receive(Pause)] + Times(Dispatch, 3);
    PauseGoesThrough(cfg, s);
    var s1 := s.(pauseRequested := true);
    LoopRunsOut(cfg, s1, n);
    var s2 := Exec(cfg, s1, Times(a, 5)).value;
    LoopCloses(cfg, s2, n);
    ExecAppend(cfg, s1, Times(a, 5), [a]);
    acts := pause + (Times(a, 5) + [a]);
    ExecAppend(cfg, s, pause, Times(a, 5) + [a]);
  }

  /** The new run's channel is already closed although the run has not begun. */
  lemma OvertakingClosesEarly(cfg: Config, s: State, i: nat) returns (acts: seq<Action>)
    requires !cfg.atomicExit && Overtakes(s, Dispatch)
    requires i < |s.loops| && s.loops[i] == CloseDone
    ensures Exec(cfg, s, acts)
            == Some(Started(cfg, s).(loops := (s.loops + [Install])[i := Gone], closes := s.closes + [1]))
  {
    StartGoesThrough(cfg, s);
    var s1 := Started(cfg, s);
    LoopCloses(cfg, s1, i);
    assert s1.closes[|s.closes| := 1] == s.closes + [1];
    acts := Times(Dispatch, 6) + [Advance(i, Halt)];
    ExecAppend(cfg, s, Times(Dispatch, 6), [Advance(i, Halt)]);
  }

  /** Two continues in a row, with a pause between them, are enough: the second one overtakes the
      first run's exit, with or without a mutex. */
  lemma OvertakingIsReachable(cfg: Config) returns (acts: seq<Action>)
    requires !cfg.atomicExit
    ensures Exec(cfg, START, acts).Some? && Inv(cfg, Exec(cfg, START, acts).value)
            && Overtakes(Exec(cfg, START, acts).value, Dispatch)
  {
    var a := Advance(0, Halt);
    var first := [Receive(Continue)] + Times(Dispatch, 6);
    var pause := [Receive(Pause)] + Times(Dispatch, 3);
    var s1 := START.(running := true, closes := [0], loops := [Install]);
    FirstRun(cfg);
    PauseGoesThrough(cfg, s1);
    var s2 := s1.(pauseRequested := true);
    LoopRunsOut(cfg, s2, 0);
    var s3 := s2.(running := false, stopped := 1, loops := [CloseDone]);
    assert [Install][0 := CloseDone] == [CloseDone];
    var s4 := s3.(disp := CheckRunning(Continue));
    ExecStep(cfg, s3, Receive(Continue), []);
    assert [Receive(Continue)] + [] == [Receive(Continue)] && Exec(cfg, s4, []) == Some(s4);
    ExecAppend(cfg, s2, Times(a, 5), [Receive(Continue)]);
    ExecAppend(cfg, s1, pause, Times(a, 5) + [Receive(Continue)]);
    acts := first + (pause + (Times(a, 5) + [Receive(Continue)]));
    ExecAppend(cfg, START, first, pause + (Times(a, 5) + [Receive(Continue)]));
    assert s4.loops == [CloseDone];
  }

  /** The same overtaking lets a disconnect finish while the new run is still going. With a mutex
      the terminal UI may first have to let go of it. */
  lemma OvertakingEndsSessionEarly(cfg: Config, s: State) returns (acts: seq<Action>)
    requires !cfg.atomicExit && Inv(cfg, s) && Overtakes(s, Dispatch)
    ensures Exec(cfg, s, acts).Some?
    ensures var s' := Exec(cfg, s, acts).value; s'.disp == Terminated && s'.running && Install in s'.loops
  {
    var i :| 0 <= i < |s.loops| && s.loops[i] == CloseDone;
    var early := OvertakingClosesEarly(cfg, s, i);
    var s2 := Exec(cfg, s, early).value;
    assert s2.loops[|s.loops|] == Install;
    NoLoopOwns(cfg, s);
    var quiet := if s2.owner.ByTui? then [TuiUnlock] else [];
    var s3 := s2.(owner := Free);
    if s2.owner.ByTui? {
      ExecStep(cfg, s2, TuiUnlock, []);
      assert [TuiUnlock] + [] == [TuiUnlock] && Exec(cfg, s3, []) == Some(s3);
    }
    var bye := [Receive(Disconnect)] + Times(Dispatch, 5);
    ClosedChannelLetsDisconnectGo(cfg, s3);
    ExecAppend(cfg, s2, quiet, bye);
    acts := early + (quiet + bye);
    ExecAppend(cfg, s, early, quiet + bye);
  }

  /** While a start overtakes, the mutex is the dispatcher's, the UI's or nobody's. */
  lemma NoLoopOwns(cfg: Config, s: State)
    requires Inv(cfg, s) && Overtakes(s, Dispatch)
    ensures !s.owner.ByLoop? && (s.owner == ByDispatcher ==> cfg.mutex && NeedsLock(s.disp.r))
    ensures s.owner.ByTui? ==> cfg.mutex
  {
    var i :| 0 <= i < |s.loops| && s.loops[i] == CloseDone;
    assert i == |s.loops| - 1;
  }

  lemma ClosedChannelLetsDisconnectGo(cfg: Config, s: State)
    requires s.owner == Free && s.disp == Idle && s.running
    requires s.runDone < |s.closes| && s.closes[s.runDone] > 0
    ensures Exec(cfg, s, [Receive(Disconnect)] + Times(Dispatch, 5))
            == Some(s.(pauseRequested := true, disp := Terminated))
  {
    var t := if cfg.mutex then s.(owner := ByDispatcher) else s;
    var s1 := s.(disp := Locking(Disconnect));
    var s2 := t.(disp := CheckRunning(Disconnect));
    var s3 := t.(disp := SetPause(Disconnect));
    var s4 := t.(pauseRequested := true, disp := Waiting(s.runDone));
    ExecStep(cfg, s, Receive(Disconnect), Times(Dispatch, 5));
    ExecStep(cfg, s1, Dispatch, Times(Dispatch, 4));
    ExecStep(cfg, s2, Dispatch, Times(Dispatch, 3));
    ExecStep(cfg, s3, Dispatch, Times(Dispatch, 2));
    DisconnectLeaves(cfg, s4);
  }

  lemma DisconnectLeaves(cfg: Config, s: State)
    requires s.disp.Waiting? && s.disp.channel < |s.closes| && s.closes[s.disp.channel] > 0
    ensures Exec(cfg, s, Times(Dispatch, 2))
            == Some(s.(owner := if cfg.mutex then Free else s.owner, disp := Terminated))
  {
    var s1 := s.(disp := Leaving(Disconnect));
    var s2 := s.(owner := if cfg.mutex then Free else s.owner, disp := Terminated);
    ExecStep(cfg, s, Dispatch, Times(Dispatch, 1));
    ExecStep(cfg, s1, Dispatch, Times(Dispatch, 0));
    assert Exec(cfg, s2, []) == Some(s2);
  }

  /** With a shared mutex the stuck disconnect of DeadlockExactly is reachable. */
  lemma DeadlockIsReachable(cfg: Config) returns (acts: seq<Action>)
    requires cfg.mutex
    ensures Exec(cfg, START, acts).Some? && Inv(cfg, Exec(cfg, START, acts).value)
            && Exec(cfg, START, acts).value.disp.Waiting?
            && forall a :: Next(cfg, Exec(cfg, START, acts).value, a).None?
  {
    var s1 := START.(running := true, closes := [0], loops := [Install]);
    var s2 := s1.(loops := [WantLock]);
    var first := [Receive(Continue)] + Times(Dispatch, 6);
    var loop := Times(Advance(0, GoOn), 2);
    var bye := [Receive(Disconnect)] + Times(Dispatch, 3);
    FirstRun(cfg);
    LoopReachesLock(cfg, s1);
    DisconnectTakesLock(cfg, s2);
    ExecAppend(cfg, s1, loop, bye);
    acts := first + (loop + bye);
    ExecAppend(cfg, START, first, loop + bye);
    DeadlockExactly(cfg, s2.(owner := ByDispatcher, pauseRequested := true, disp := Waiting(0)));
  }

  lemma LoopReachesLock(cfg: Config, s: State)
    requires s.loops == [Install] && !s.pauseRequested
    ensures Exec(cfg, s, Times(Advance(0, GoOn), 2)) == Some(s.(loops := [WantLock]))
  {
    var s1 := s.(loops := [Check]);
    var s2 := s.(loops := [WantLock]);
    assert [Install][0 := Check] == [Check] && [Check][0 := WantLock] == [WantLock];
    assert Next(cfg, s, Advance(0, GoOn)) == Some(s1) && Next(cfg, s1, Advance(0, GoOn)) == Some(s2);
    ExecStep(cfg, s, Advance(0, GoOn), Times(Advance(0, GoOn), 1));
    ExecStep(cfg, s1, Advance(0, GoOn), Times(Advance(0, GoOn), 0));
    assert Exec(cfg, s2, []) == Some(s2);
  }

  lemma DisconnectTakesLock(cfg: Config, s: State)
    requires cfg.mutex && s.owner == Free && s.disp == Idle && s.running
    ensures Exec(cfg, s, [Receive(Disconnect)] + Times(Dispatch, 3))
            == Some(s.(owner := ByDispatcher, pauseRequested := true, disp := Waiting(s.runDone)))
  {
    var s2 := s.(owner := ByDispatcher, disp := CheckRunning(Disconnect));
    var s3 := s.(owner := ByDispatcher, pauseRequested := true, disp := Waiting(s.runDone));
    ExecStep(cfg, s, Receive(Disconnect), Times(Dispatch, 3));
    ExecStep(cfg, s.(disp := Locking(Disconnect)), Dispatch, Times(Dispatch, 2));
    ExecStep(cfg, s2, Dispatch, Times(Dispatch, 1));
    ExecStep(cfg, s2.(disp := SetPause(Disconnect)), Dispatch, Times(Dispatch, 0));
    assert Exec(cfg, s3, []) == Some(s3);
  }

  lemma FirstRun(cfg: Config)
    ensures Exec(cfg, START, [Receive(Continue)] + Times(Dispatch, 6))
            == Some(START.(running := true, closes := [0], loops := [Install]))
  {
    ExecStep(cfg, START, Receive(Continue), Times(Dispatch, 6));
    StartGoesThrough(cfg, START.(disp := CheckRunning(Continue)));
    assert START.closes + [0] == [0] && START.loops + [Install] == [Install];
  }
}
