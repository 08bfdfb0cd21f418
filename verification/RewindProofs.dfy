/** Rewind is exact: on every run of commands the session stays on the reference
    timeline, and a successful rewind lands on the state of its target step. */
module RewindProofs {
  import opened Basics
  import opened Machine
  import opened Rewind

  // ---------- the invariant ----------

  ghost predicate Chained(cpu: Cpu, t: Timeline) {
    forall i | 0 <= i < |t| - 1 :: t[i + 1] == Next(cpu, t[i])
  }

  /** Entry j of the fine ring undoes the step taken from t[at - |fine| + j]. */
  ghost predicate FineUndoes(cpu: Cpu, fine: seq<Snapshot>, t: Timeline, at: nat) {
    && |fine| <= at < |t|
    && forall j | 0 <= j < |fine| :: fine[j] == StepSnapshot(cpu, t[at - |fine| + j])
  }

  ghost predicate FineOnTimeline(cpu: Cpu, s: Session, t: Timeline) {
    FineUndoes(cpu, s.fine, t, s.stepCount) && |s.fine| <= s.fineCap
  }

  /** The ring may hold keyframes of abandoned timelines, but the newest one at or below a
      multiple of the interval is always the current timeline's own keyframe there. */
  ghost predicate KeyframesOnTimeline(kfs: seq<Keyframe>, t: Timeline) {
    && (forall i | 0 <= i < |kfs| :: kfs[i].step % INTERVAL == 0)
    && forall q: nat | q % INTERVAL == 0 && q < |t| ::
         Nearest(kfs, q).None? || Nearest(kfs, q).value == Keyframe(q, FullSnapshot(t[q]))
  }

  ghost predicate Inv(cpu: Cpu, s: Session, t: Timeline) {
    && |t| == s.stepCount + 1
    && s.live == Last(t)
    && Chained(cpu, t)
    && FineOnTimeline(cpu, s, t)
    && KeyframesOnTimeline(s.keyframes, t)
    && |s.keyframes| <= s.keyCap
    && s.keyCap >= 1
  }

  // ---------- snapshots undo and restore ----------

  lemma DevicesComeBack(was: Devices, now: Devices)
    ensures RestoreDevices(KeepWired(was, now), CaptureDevices(was)) == was
  {
    assert KeepWired(KeepWired(was, now), was) == was;
  }

  lemma StepSnapshotUndoes(cpu: Cpu, s: State)
    ensures Restored(Next(cpu, s), StepSnapshot(cpu, s)) == s
  {
    UndoWrites(s.ram, cpu.frozen, cpu.execute(s).writes);
    DevicesComeBack(s.devices, cpu.execute(s).devices);
  }

  /** A full snapshot restores its state from any state with the same devices wired. */
  lemma FullSnapshotRestores(now: State, s: State)
    requires now.devices.Keys == s.devices.Keys
    ensures Restored(now, FullSnapshot(s)) == s
  {
    var back := ApplyPages(now.ram, AllPages(s.ram));
    forall i | 0 <= i < RAM_SIZE ensures back[i] == s.ram[i] {
      PageImageAt(s.ram, i);
    }
    assert back == s.ram;
    assert RestoreDevices(now.devices, CaptureDevices(s.devices)) == s.devices;
  }

  lemma {:induction false} DevicesStayWired(cpu: Cpu, t: Timeline, i: nat, j: nat)
    requires Chained(cpu, t)
    requires i <= j < |t|
    ensures t[i].devices.Keys == t[j].devices.Keys
    decreases j
  {
    if i < j {
      DevicesStayWired(cpu, t, i, j - 1);
      assert t[j - 1 + 1] == Next(cpu, t[j - 1]);
    }
  }

  // ---------- the nearest keyframe ----------

  lemma {:induction false} NearestIsHeld(kfs: seq<Keyframe>, target: nat)
    ensures Nearest(kfs, target).Some? ==>
              Nearest(kfs, target).value in kfs && Nearest(kfs, target).value.step <= target
    ensures Nearest(kfs, target).None? <==> forall i | 0 <= i < |kfs| :: kfs[i].step > target
    decreases |kfs|
  {
    if kfs != [] {
      NearestIsHeld(kfs[..|kfs| - 1], target);
    }
  }

  lemma {:induction false} NearestOfSuffix(kfs: seq<Keyframe>, d: nat, target: nat)
    requires d <= |kfs|
    ensures Nearest(kfs[d..], target) in {None, Nearest(kfs, target)}
    decreases |kfs|
  {
    if d < |kfs| {
      assert kfs[d..][..|kfs[d..]| - 1] == kfs[..|kfs| - 1][d..];
      NearestOfSuffix(kfs[..|kfs| - 1], d, target);
    }
  }

  lemma NearestAfterPush(kfs: seq<Keyframe>, kf: Keyframe, cap: nat, target: nat)
    requires cap >= 1
    ensures var n := Nearest(Pushed(kfs, kf, cap), target);
            if kf.step <= target then n == Some(kf) else n in {None, Nearest(kfs, target)}
  {
    var q := Pushed(kfs, kf, cap);
    var d := if |kfs| < cap then 0 else |kfs| - cap + 1;
    assert q[..|q| - 1] == kfs[d..];
    NearestOfSuffix(kfs, d, target);
  }

  lemma {:induction false} NearestRoundsDown(kfs: seq<Keyframe>, target: nat)
    requires forall i | 0 <= i < |kfs| :: kfs[i].step % INTERVAL == 0
    ensures Nearest(kfs, target) == Nearest(kfs, target - target % INTERVAL)
    decreases |kfs|
  {
    if kfs != [] {
      NearestRoundsDown(kfs[..|kfs| - 1], target);
      MultipleBelow(kfs[|kfs| - 1].step, target);
    }
  }

  lemma MultipleBelow(m: nat, target: nat)
    requires m % INTERVAL == 0
    ensures m <= target <==> m <= target - target % INTERVAL
  {
    assert m == INTERVAL * (m / INTERVAL);
    assert target == INTERVAL * (target / INTERVAL) + target % INTERVAL;
  }

  lemma PushKeepsKeyframes(kfs: seq<Keyframe>, t: Timeline, kf: Keyframe, cap: nat)
    requires kf.step == |t| - 1 && kf.step % INTERVAL == 0 && kf.snap == FullSnapshot(t[kf.step])
    requires if kf.step == 0 then kfs == [] else KeyframesOnTimeline(kfs, t[..kf.step])
    requires cap >= 1
    ensures KeyframesOnTimeline(Pushed(kfs, kf, cap), t)
  {
    var q := Pushed(kfs, kf, cap);
    forall n: nat | n % INTERVAL == 0 && n < |t|
      ensures Nearest(q, n).None? || Nearest(q, n).value == Keyframe(n, FullSnapshot(t[n]))
    {
      NearestAfterPush(kfs, kf, cap, n);
    }
  }

  // ---------- each command keeps the invariant ----------

  lemma FineAfterRecord(cpu: Cpu, s: Session, t: Timeline, t': Timeline)
    requires |t| == s.stepCount + 1 && s.live == Last(t)
    requires FineOnTimeline(cpu, s, t)
    requires t' == t + [Next(cpu, s.live)]
    ensures FineOnTimeline(cpu, Record(cpu, s), t')
  {
  }

  lemma SeedKeepsInv(cpu: Cpu, s: Session, t: Timeline)
    requires Inv(cpu, s, t)
    ensures Inv(cpu, SeedKeyframe(s), t)
  {
    if s.stepCount == 0 && s.keyframes == [] {
      PushKeepsKeyframes(s.keyframes, t, Keyframe(0, FullSnapshot(s.live)), s.keyCap);
    }
  }

  lemma StepKeepsInv(cpu: Cpu, s: Session, t: Timeline)
    requires Inv(cpu, s, t)
    ensures Inv(cpu, StepForward(cpu, s), t + [Next(cpu, Last(t))])
  {
    SeedKeepsInv(cpu, s, t);
    var seeded := SeedKeyframe(s);
    var r := Record(cpu, seeded);
    var t' := t + [Next(cpu, Last(t))];
    FineAfterRecord(cpu, seeded, t, t');
    if r.stepCount % INTERVAL == 0 {
      assert t'[..r.stepCount] == t;
      PushKeepsKeyframes(r.keyframes, t', Keyframe(r.stepCount, FullSnapshot(r.live)), r.keyCap);
    }
  }

  lemma TruncateKeepsKeyframes(kfs: seq<Keyframe>, t: Timeline, n: nat)
    requires KeyframesOnTimeline(kfs, t)
    requires 1 <= n <= |t|
    ensures KeyframesOnTimeline(kfs, t[..n])
  {
  }

  /** Popping k deltas lands k steps earlier, for any k the fine ring still holds. */
  lemma {:induction false} PopManyLands(cpu: Cpu, s: Session, t: Timeline, at: nat, k: nat)
    requires Chained(cpu, t)
    requires FineUndoes(cpu, s.fine, t, at) && s.live == t[at]
    requires k <= |s.fine|
    ensures PopMany(s, k) == s.(live := t[at - k], fine := s.fine[..|s.fine| - k])
    decreases k
  {
    if k > 0 {
      assert t[at - 1 + 1] == Next(cpu, t[at - 1]);
      StepSnapshotUndoes(cpu, t[at - 1]);
      PopManyLands(cpu, PopFine(s), t, at - 1, k - 1);
      assert s.fine[..|s.fine| - 1][..|s.fine| - k] == s.fine[..|s.fine| - k];
    } else {
      assert s.fine[..|s.fine|] == s.fine;
    }
  }

  lemma PopsKeepInv(cpu: Cpu, s: Session, t: Timeline, k: nat)
    requires Inv(cpu, s, t)
    requires k <= |s.fine|
    ensures Inv(cpu, PopMany(s, k).(stepCount := s.stepCount - k), t[..|t| - k])
  {
    PopManyLands(cpu, s, t, s.stepCount, k);
    TruncateKeepsKeyframes(s.keyframes, t, |t| - k);
  }

  /** Replay from a state of the timeline retraces the timeline and refills the fine ring. */
  lemma {:induction false} ReplayRetraces(cpu: Cpu, s: Session, t: Timeline, target: nat)
    requires Chained(cpu, t)
    requires s.stepCount <= target < |t|
    requires s.live == t[s.stepCount]
    requires FineOnTimeline(cpu, s, t[..s.stepCount + 1])
    ensures var r := Replay(cpu, s, target);
            && r.stepCount == target && r.live == t[target]
            && FineOnTimeline(cpu, r, t[..target + 1])
            && r.keyframes == s.keyframes && r.keyCap == s.keyCap && r.fineCap == s.fineCap
            && |r.fine| == if |s.fine| + target - s.stepCount <= s.fineCap
                             then |s.fine| + target - s.stepCount else s.fineCap
    decreases target - s.stepCount
  {
    if s.stepCount < target {
      var now := t[..s.stepCount + 1];
      assert t[s.stepCount + 1] == Next(cpu, t[s.stepCount]);
      assert t[..s.stepCount + 2] == now + [Next(cpu, s.live)];
      FineAfterRecord(cpu, s, now, t[..s.stepCount + 2]);
      ReplayRetraces(cpu, Record(cpu, s), t, target);
    }
  }

  lemma NearestOnTimeline(cpu: Cpu, s: Session, t: Timeline, target: nat)
    requires Inv(cpu, s, t)
    requires target <= s.stepCount
    ensures Nearest(s.keyframes, target).Some? ==>
              var kf := Nearest(s.keyframes, target).value;
              kf.step == target - target % INTERVAL && kf.snap == FullSnapshot(t[kf.step])
  {
    NearestRoundsDown(s.keyframes, target);
    var q: nat := target - target % INTERVAL;
    assert q % INTERVAL == 0;
  }

  /** The deep path: back to the keyframe, then forward again to the target. */
  lemma DeepRewindKeepsInv(cpu: Cpu, s: Session, t: Timeline, target: nat)
    requires Inv(cpu, s, t)
    requires target < s.stepCount
    requires Nearest(s.keyframes, target).Some?
    ensures var kf := Nearest(s.keyframes, target).value;
            && kf.step <= target
            && Inv(cpu, Replay(cpu, AtKeyframe(s, kf), target), t[..target + 1])
  {
    NearestOnTimeline(cpu, s, t, target);
    var kf := Nearest(s.keyframes, target).value;
    DevicesStayWired(cpu, t, kf.step, s.stepCount);
    FullSnapshotRestores(s.live, t[kf.step]);
    ReplayRetraces(cpu, AtKeyframe(s, kf), t, target);
    TruncateKeepsKeyframes(s.keyframes, t, target + 1);
  }

  lemma RewindKeepsInv(cpu: Cpu, s: Session, t: Timeline, n: nat)
    requires Inv(cpu, s, t)
    ensures Inv(cpu, RewindCommand(cpu, s, n).0, Travel(cpu, s, t, RewindBy(n)))
  {
    var target := RewindTarget(s, n);
    if n > 0 && target < s.stepCount {
      if s.stepCount - target <= |s.fine| {
        PopsKeepInv(cpu, s, t, s.stepCount - target);
      } else if Nearest(s.keyframes, target).Some? {
        DeepRewindKeepsInv(cpu, s, t, target);
      }
    }
  }

  lemma ExecKeepsInv(cpu: Cpu, s: Session, t: Timeline, c: Command)
    requires Inv(cpu, s, t)
    ensures Inv(cpu, Exec(cpu, s, c), Travel(cpu, s, t, c))
  {
    match c
    case Step => StepKeepsInv(cpu, s, t);
    case Back =>
      if s.fine != [] {
        PopsKeepInv(cpu, s, t, 1);
        assert PopMany(s, 1) == PopMany(PopFine(s), 0);
      }
    case RewindBy(n) => RewindKeepsInv(cpu, s, t, n);
    case Reset =>
    case Budget(mb) =>
      if mb >= 1 {
        var clamped := if mb > MAX_BUDGET_MB then MAX_BUDGET_MB else mb;
        SeedKeepsInv(cpu, s.(keyframes := [], keyCap := KeyframeCap(clamped * MIB)), t);
      }
  }

  // ---------- the theorems ----------

  /** Every run, from any invariant session, mixing steps, back steps, rewinds, resets and
      budget changes in any order: the live machine is the timeline's state at stepCount. */
  lemma {:induction false} RunStaysOnTimeline(cpu: Cpu, s: Session, t: Timeline, cs: seq<Command>)
    requires Inv(cpu, s, t)
    ensures var s' := Run(cpu, s, cs);
            var t' := RunTimeline(cpu, s, t, cs);
            Inv(cpu, s', t') && |t'| == s'.stepCount + 1 && s'.live == t'[s'.stepCount]
    decreases |cs|
  {
    if cs != [] {
      ExecKeepsInv(cpu, s, t, cs[0]);
      RunStaysOnTimeline(cpu, Exec(cpu, s, cs[0]), Travel(cpu, s, t, cs[0]), cs[1..]);
    }
  }

  lemma FreshIsOnTimeline(cpu: Cpu, s: State, fineCap: nat, keyCap: nat)
    requires keyCap >= 1
    ensures Inv(cpu, Fresh(s, fineCap, keyCap), [s])
  {
  }

  /** After any run, `:rewind n` is exact whichever path it takes; it is turned down without
      touching anything exactly when it asks for nothing or no kept snapshot reaches far enough. */
  lemma RewindIsExact(cpu: Cpu, start: State, fineCap: nat, keyCap: nat, cs: seq<Command>, n: nat)
    requires keyCap >= 1
    ensures var s := Run(cpu, Fresh(start, fineCap, keyCap), cs);
            var t := RunTimeline(cpu, Fresh(start, fineCap, keyCap), [start], cs);
            var target := RewindTarget(s, n);
            var (s', report) := RewindCommand(cpu, s, n);
            && |t| == s.stepCount + 1
            && (report == AlreadyThere <==> n == 0 || s.stepCount == 0)
            && (report == BeyondReach <==>
                  n > 0 && s.stepCount > 0 && s.stepCount - target > |s.fine|
                  && forall i | 0 <= i < |s.keyframes| :: s.keyframes[i].step > target)
            && (report in {AlreadyThere, BeyondReach} ==> s' == s)
            && (report !in {AlreadyThere, BeyondReach} ==> s'.stepCount == target && s'.live == t[target])
            && (report.Replayed? ==> report.steps == target % INTERVAL)
  {
    var s0 := Fresh(start, fineCap, keyCap);
    FreshIsOnTimeline(cpu, start, fineCap, keyCap);
    RunStaysOnTimeline(cpu, s0, [start], cs);
    var s := Run(cpu, s0, cs);
    var t := RunTimeline(cpu, s0, [start], cs);
    var target := RewindTarget(s, n);
    RewindKeepsInv(cpu, s, t, n);
    NearestIsHeld(s.keyframes, target);
    NearestOnTimeline(cpu, s, t, target);
  }
}
