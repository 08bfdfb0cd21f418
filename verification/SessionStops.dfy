/** Why a run stops, and that it does. */
module SessionStops {
  import opened Basics
  import opened Session
  import opened SessionProofs

  /** On the way out: a run loop that will not touch the processor again. */
  predicate Exiting(l: Loop) {
    l.SendStopped? || HasStopped(l)
  }

  /** How often loop i itself moves. */
  function Own(acts: seq<Action>, i: nat): nat {
    if acts == [] then 0
    else Own(acts[..|acts| - 1], i) + if acts[|acts| - 1].Advance? && acts[|acts| - 1].i == i then 1 else 0
  }

  /** Where an exiting loop stands after k moves of its own. */
  predicate ExitStage(l: Loop, k: nat) {
    if k == 0 then l.SendStopped? else if k == 1 then l.RemoveHook? else if k == 2 then l.ClearRunning?
    else l.CloseDone? || l.Gone?
  }

  lemma ExitMoves(cfg: Config, s: State, a: Action, i: nat, k: nat)
    requires i < |s.loops| && ExitStage(s.loops[i], k) && Next(cfg, s, a).Some?
    ensures var s' := Next(cfg, s, a).value;
            var own := a.Advance? && a.i == i;
            && i < |s'.loops| && ExitStage(s'.loops[i], if own then k + 1 else k)
            && (own && k == 2 ==> !s'.running)
  {
  }

  lemma {:induction false} ExecLast(cfg: Config, s: State, acts: seq<Action>)
    requires acts != [] && Exec(cfg, s, acts).Some?
    ensures var m := |acts| - 1;
            && Exec(cfg, s, acts[..m]).Some?
            && Next(cfg, Exec(cfg, s, acts[..m]).value, acts[m]) == Exec(cfg, s, acts)
    decreases |acts|
  {
    var m := |acts| - 1;
    if m == 0 {
      assert acts[1..] == [] && acts[..0] == [];
    } else {
      var s' := Next(cfg, s, acts[0]).value;
      ExecLast(cfg, s', acts[1..]);
      assert acts[1..][..m - 1] == acts[..m][1..];
    }
  }

  /** A halting iteration ends its run, whatever else goes on: from then on the loop stands where the
      number of its own moves says, which is never at the lock or in a step again; its third move
      clears `running`. */
  lemma {:induction false} HaltEndsRun(cfg: Config, s: State, i: nat, acts: seq<Action>)
    requires i < |s.loops| && s.loops[i].StepCpu?
    requires Next(cfg, s, Advance(i, Halt)).Some? && Exec(cfg, Next(cfg, s, Advance(i, Halt)).value, acts).Some?
    ensures var s1 := Next(cfg, s, Advance(i, Halt)).value;
            var s2 := Exec(cfg, s1, acts).value;
            && i < |s2.loops| && ExitStage(s2.loops[i], Own(acts, i))
            && !WantsLock(s2.loops[i]) && !s2.loops[i].StepCpu?
            && (Own(acts, i) == 3 && acts[|acts| - 1].Advance? && acts[|acts| - 1].i == i ==> !s2.running)
    decreases |acts|
  {
    if acts != [] {
      var s1 := Next(cfg, s, Advance(i, Halt)).value;
      var m := |acts| - 1;
      ExecLast(cfg, s1, acts);
      HaltEndsRun(cfg, s, i, acts[..m]);
      ExitMoves(cfg, Exec(cfg, s1, acts[..m]).value, acts[m], i, Own(acts[..m], i));
    }
  }

  /** In a careful run the client hears of it exactly once before another run starts, with the loop's
      first move after the halt. */
  lemma HaltIsReported(cfg: Config, s: State, i: nat, acts: seq<Action>)
    requires Inv(cfg, s) && i < |s.loops| && s.loops[i].StepCpu?
    requires Next(cfg, s, Advance(i, Halt)).Some?
    requires var s1 := Next(cfg, s, Advance(i, Halt)).value; Exec(cfg, s1, acts).Some? && Careful(cfg, s1, acts)
    ensures var s2 := Exec(cfg, Next(cfg, s, Advance(i, Halt)).value, acts).value;
            if |s2.loops| > |s.loops| then s2.stopped > s.stopped
            else s2.stopped == s.stopped + if Own(acts, i) == 0 then 0 else 1
  {
    OnlyNewestMoves(cfg, s, i, Halt);
    NextKeepsInv(cfg, s, Advance(i, Halt));
    RunKeepsInv(cfg, Next(cfg, s, Advance(i, Halt)).value, acts);
    HaltEndsRun(cfg, s, i, acts);
  }

  /** What sends loop i on its way out: an iteration that halts, or a pause seen at the check. */
  predicate Cause(s: State, a: Action, i: nat) {
    && a.Advance? && a.i == i && i < |s.loops|
    && ((s.loops[i].StepCpu? && a.c.Halt?) || (s.loops[i].Check? && s.pauseRequested))
  }

  lemma OnlyACauseExits(cfg: Config, s: State, a: Action, i: nat)
    requires Next(cfg, s, a).Some? && i < |Next(cfg, s, a).value.loops|
    requires Exiting(Next(cfg, s, a).value.loops[i]) && (i < |s.loops| ==> !Exiting(s.loops[i]))
    ensures Cause(s, a, i)
  {
  }

  /** No run stops by itself: a loop on its way out took a halt or saw a pause request. */
  lemma {:induction false} StopHasCause(cfg: Config, s: State, acts: seq<Action>, i: nat) returns (k: nat)
    requires Exec(cfg, s, acts).Some? && i < |Exec(cfg, s, acts).value.loops|
    requires Exiting(Exec(cfg, s, acts).value.loops[i]) && (i < |s.loops| ==> !Exiting(s.loops[i]))
    ensures k < |acts| && Exec(cfg, s, acts[..k]).Some? && Cause(Exec(cfg, s, acts[..k]).value, acts[k], i)
    decreases |acts|
  {
    var m := |acts| - 1;
    ExecLast(cfg, s, acts);
    var before := Exec(cfg, s, acts[..m]).value;
    if i < |before.loops| && Exiting(before.loops[i]) {
      k := StopHasCause(cfg, s, acts[..m], i);
      assert acts[..m][..k] == acts[..k];
    } else {
      OnlyACauseExits(cfg, before, acts[m], i);
      k := m;
    }
  }

  /** `stopped` goes up only by a loop on its way out. */
  lemma OnlyExitsReport(cfg: Config, s: State, a: Action)
    requires Next(cfg, s, a).Some? && Next(cfg, s, a).value.stopped != s.stopped
    ensures Next(cfg, s, a).value.stopped == s.stopped + 1
    ensures a.Advance? && a.i < |s.loops| && s.loops[a.i].SendStopped?
  {
  }
}
