/** How far back a straight run can be rewound. */
module RewindReach {
  import opened Basics
  import opened Machine
  import opened Rewind
  import opened RewindProofs

  function Min(a: int, b: int): int {
    if a < b then a else b
  }

  function Max(a: int, b: int): int {
    if a < b then b else a
  }

  function Forward(k: nat): seq<Command> {
    seq(k, _ => Step)
  }

  /** Steps from stepCount back to the oldest keyframe of a run that never looked back. */
  function KeyframeReach(cap: nat, stepCount: nat): int {
    (Min(cap, stepCount / INTERVAL + 1) - 1) * INTERVAL + stepCount % INTERVAL
  }

  /** What the status line advertises (`rewindReachSteps`). */
  function AdvertisedReach(cap: nat): nat {
    cap * INTERVAL
  }

  lemma {:induction false} RunAppend(cpu: Cpu, s: Session, cs: seq<Command>, c: Command)
    ensures Run(cpu, s, cs + [c]) == Exec(cpu, Run(cpu, s, cs), c)
    decreases |cs|
  {
    if cs == [] {
      assert Run(cpu, Exec(cpu, s, c), []) == Exec(cpu, s, c);
      assert ([] + [c])[1..] == [];
    } else {
      RunAppend(cpu, Exec(cpu, s, cs[0]), cs[1..], c);
      assert (cs + [c])[1..] == cs[1..] + [c];
    }
  }

  /** A straight run of k steps holds the last min(cap, k/4096 + 1) multiples, oldest first. */
  ghost predicate StraightKeyframes(kfs: seq<Keyframe>, cap: nat, k: nat) {
    && |kfs| == Min(cap, k / INTERVAL + 1)
    && forall i | 0 <= i < |kfs| :: kfs[i].step == (k / INTERVAL + 1 - |kfs| + i) * INTERVAL
  }

  /** The session k steps into such a run. */
  ghost predicate Straight(s: Session, fineCap: nat, cap: nat, k: nat) {
    && s.stepCount == k && s.keyCap == cap && s.fineCap == fineCap
    && |s.fine| == Min(k, fineCap)
    && (k == 0 ==> s.keyframes == [])
    && (k > 0 ==> StraightKeyframes(s.keyframes, cap, k))
  }

  lemma {:induction false} StraightRun(cpu: Cpu, start: State, fineCap: nat, cap: nat, k: nat)
    requires cap >= 1
    ensures Straight(Run(cpu, Fresh(start, fineCap, cap), Forward(k)), fineCap, cap, k)
  {
    var s0 := Fresh(start, fineCap, cap);
    if k > 0 {
      StraightRun(cpu, start, fineCap, cap, k - 1);
      assert Forward(k) == Forward(k - 1) + [Step];
      RunAppend(cpu, s0, Forward(k - 1), Step);
      StraightStep(cpu, Run(cpu, s0, Forward(k - 1)), fineCap, cap, k);
    } else {
      assert Run(cpu, s0, Forward(0)) == s0;
    }
  }

  /** One more step of a straight run. */
  lemma StraightStep(cpu: Cpu, s: Session, fineCap: nat, cap: nat, k: nat)
    requires cap >= 1 && k > 0 && Straight(s, fineCap, cap, k - 1)
    ensures Straight(Exec(cpu, s, Step), fineCap, cap, k)
  {
    var kfs := SeedKeyframe(s).keyframes;
    assert StraightKeyframes(kfs, cap, k - 1);
    assert StraightKeyframes(StepForward(cpu, s).keyframes, cap, k) by {
      if k % INTERVAL == 0 {
        StraightPush(kfs, cap, k, Keyframe(k, FullSnapshot(Next(cpu, s.live))));
      } else {
        assert k / INTERVAL == (k - 1) / INTERVAL;
      }
    }
  }

  lemma StraightPush(kfs: seq<Keyframe>, cap: nat, k: nat, kf: Keyframe)
    requires cap >= 1 && k > 0 && k % INTERVAL == 0 && kf.step == k && StraightKeyframes(kfs, cap, k - 1)
    ensures StraightKeyframes(Pushed(kfs, kf, cap), cap, k)
  {
    assert k / INTERVAL == (k - 1) / INTERVAL + 1;
  }

  /** After k forward steps, `:rewind n` succeeds exactly up to the larger of the fine depth and
      the keyframe reach. The keyframe reach is always short of what is advertised, so the whole
      reach is exactly when the fine depth is. */
  lemma StraightReach(cpu: Cpu, start: State, fineCap: nat, cap: nat, k: nat, n: nat)
    requires cap >= 1
    requires 1 <= n <= k
    ensures var s := Run(cpu, Fresh(start, fineCap, cap), Forward(k));
            RewindCommand(cpu, s, n).1 == BeyondReach <==> n > Max(Min(k, fineCap), KeyframeReach(cap, k))
    ensures KeyframeReach(cap, k) < AdvertisedReach(cap)
    ensures Max(Min(k, fineCap), KeyframeReach(cap, k)) < AdvertisedReach(cap)
            <==> Min(k, fineCap) < AdvertisedReach(cap)
  {
    StraightRun(cpu, start, fineCap, cap, k);
    var s := Run(cpu, Fresh(start, fineCap, cap), Forward(k));
    var kfs := s.keyframes;
    NearestIsHeld(kfs, k - n);
    assert kfs[0].step == (k / INTERVAL + 1 - |kfs|) * INTERVAL == k - KeyframeReach(cap, k);
    forall i | 0 <= i < |kfs| ensures kfs[i].step >= kfs[0].step {
    }
  }
}
