/** Which keyframes any run still holds, and so which rewinds it can answer. */
module RewindRetention {
  import opened Basics
  import opened Machine
  import opened Rewind
  import opened RewindProofs

  /** The last `cap` entries. */
  function Recent(q: seq<Keyframe>, cap: nat): seq<Keyframe> {
    if |q| <= cap then q else q[|q| - cap..]
  }

  function KeyframeAt(step: nat, s: State): Keyframe {
    Keyframe(step, FullSnapshot(s))
  }

  /** Every keyframe due since the ring was last emptied, `h` being those due so far: the state before
      the first step, and every state whose step is a multiple of the interval, each time a step
      reaches it. Looking back takes nothing away. */
  function Due(cpu: Cpu, h: seq<Keyframe>, t: Timeline, c: Command): seq<Keyframe> {
    match c
    case Step =>
      h + (if |t| == 1 && h == [] then [KeyframeAt(0, t[0])] else [])
      + (if |t| % INTERVAL == 0 then [KeyframeAt(|t|, Next(cpu, Last(t)))] else [])
    case Back => h
    case RewindBy(_) => h
    case Reset => []
    case Budget(mb) => if mb < 1 then h else if |t| == 1 then [KeyframeAt(0, t[0])] else []
  }

  /** The keyframes due over a whole run. */
  function History(cpu: Cpu, s: Session, t: Timeline, h: seq<Keyframe>, cs: seq<Command>): seq<Keyframe>
    decreases |cs|
  {
    if cs == [] then h
    else History(cpu, Exec(cpu, s, cs[0]), Travel(cpu, s, t, cs[0]), Due(cpu, h, t, cs[0]), cs[1..])
  }

  lemma PushedIsRecent(h: seq<Keyframe>, kf: Keyframe, cap: nat)
    requires cap >= 1
    ensures Pushed(Recent(h, cap), kf, cap) == Recent(h + [kf], cap)
  {
  }

  lemma SeedIsDue(s: Session, h: seq<Keyframe>)
    requires s.keyCap >= 1 && s.keyframes == Recent(h, s.keyCap)
    ensures SeedKeyframe(s) == s.(keyframes := SeedKeyframe(s).keyframes)
    ensures SeedKeyframe(s).keyframes
            == Recent(h + (if s.stepCount == 0 && h == [] then [KeyframeAt(0, s.live)] else []), s.keyCap)
  {
    PushedIsRecent(h, KeyframeAt(0, s.live), s.keyCap);
    assert h + [] == h;
  }

  lemma StepHoldsDue(cpu: Cpu, s: Session, t: Timeline, h: seq<Keyframe>)
    requires Inv(cpu, s, t) && s.keyframes == Recent(h, s.keyCap)
    ensures StepForward(cpu, s).keyframes == Recent(Due(cpu, h, t, Step), s.keyCap)
  {
    var seeded := SeedKeyframe(s);
    var g := h + if |t| == 1 && h == [] then [KeyframeAt(0, t[0])] else [];
    SeedIsDue(s, h);
    assert seeded.keyframes == Recent(g, s.keyCap);
    MaybeIsDue(Record(cpu, seeded), g);
  }

  lemma MaybeIsDue(r: Session, g: seq<Keyframe>)
    requires r.keyCap >= 1 && r.keyframes == Recent(g, r.keyCap)
    ensures MaybeKeyframe(r).keyframes
            == Recent(g + (if r.stepCount % INTERVAL == 0 then [KeyframeAt(r.stepCount, r.live)] else []), r.keyCap)
  {
    PushedIsRecent(g, KeyframeAt(r.stepCount, r.live), r.keyCap);
    assert g + [] == g;
  }

  /** A rewind changes neither ring's size nor its keyframes. */
  lemma RewindHoldsAll(cpu: Cpu, s: Session, t: Timeline, n: nat)
    requires Inv(cpu, s, t)
    ensures RewindCommand(cpu, s, n).0.keyframes == s.keyframes && RewindCommand(cpu, s, n).0.keyCap == s.keyCap
  {
    var target := RewindTarget(s, n);
    if n > 0 && target < s.stepCount {
      if s.stepCount - target <= |s.fine| {
        PopManyLands(cpu, s, t, s.stepCount, s.stepCount - target);
      } else if Nearest(s.keyframes, target).Some? {
        ReplayHoldsAll(cpu, AtKeyframe(s, Nearest(s.keyframes, target).value), target);
      }
    }
  }

  lemma {:induction false} ReplayHoldsAll(cpu: Cpu, s: Session, target: nat)
    ensures Replay(cpu, s, target).keyframes == s.keyframes && Replay(cpu, s, target).keyCap == s.keyCap
    decreases target - s.stepCount
  {
    if s.stepCount < target {
      ReplayHoldsAll(cpu, Record(cpu, s), target);
    }
  }

  /** One command: the ring holds the newest of the keyframes due, as many as it has slots. */
  lemma ExecHoldsDue(cpu: Cpu, s: Session, t: Timeline, h: seq<Keyframe>, c: Command)
    requires Inv(cpu, s, t) && s.keyframes == Recent(h, s.keyCap)
    ensures Exec(cpu, s, c).keyframes == Recent(Due(cpu, h, t, c), Exec(cpu, s, c).keyCap)
    ensures !c.Budget? ==> Exec(cpu, s, c).keyCap == s.keyCap
  {
    match c
    case Step => StepHoldsDue(cpu, s, t, h);
    case Back =>
    case RewindBy(n) => RewindHoldsAll(cpu, s, t, n);
    case Reset =>
    case Budget(_) =>
  }

  lemma {:induction false} RunHoldsDue(cpu: Cpu, s: Session, t: Timeline, h: seq<Keyframe>, cs: seq<Command>)
    requires Inv(cpu, s, t) && s.keyframes == Recent(h, s.keyCap)
    ensures Run(cpu, s, cs).keyframes == Recent(History(cpu, s, t, h, cs), Run(cpu, s, cs).keyCap)
    decreases |cs|
  {
    if cs != [] {
      ExecKeepsInv(cpu, s, t, cs[0]);
      ExecHoldsDue(cpu, s, t, h, cs[0]);
      RunHoldsDue(cpu, Exec(cpu, s, cs[0]), Travel(cpu, s, t, cs[0]), Due(cpu, h, t, cs[0]), cs[1..]);
    }
  }

  /** After any run, whatever it looked back at, the ring holds the newest of all the keyframes due
      since it was last emptied, in the order they came: nothing is lost but to a full ring. */
  lemma RingIsRecentHistory(cpu: Cpu, start: State, fineCap: nat, keyCap: nat, cs: seq<Command>)
    requires keyCap >= 1
    ensures var s0 := Fresh(start, fineCap, keyCap);
            var s := Run(cpu, s0, cs);
            s.keyframes == Recent(History(cpu, s0, [start], [], cs), s.keyCap)
  {
    FreshIsOnTimeline(cpu, start, fineCap, keyCap);
    RunHoldsDue(cpu, Fresh(start, fineCap, keyCap), [start], [], cs);
  }

  // ---------- what can be reached ----------

  predicate NoBudget(cs: seq<Command>) {
    forall i | 0 <= i < |cs| :: !cs[i].Budget?
  }

  /** Without budget changes the first keyframe due is that of step 0, and it is due from the first
      step on. */
  lemma {:induction false} HistoryStartsAtZero(cpu: Cpu, s: Session, t: Timeline, h: seq<Keyframe>, cs: seq<Command>)
    requires Inv(cpu, s, t) && NoBudget(cs)
    requires if h == [] then |t| == 1 else h[0].step == 0
    ensures var h' := History(cpu, s, t, h, cs);
            if h' == [] then Run(cpu, s, cs).stepCount == 0 else h'[0].step == 0
    decreases |cs|
  {
    if cs != [] {
      ExecKeepsInv(cpu, s, t, cs[0]);
      HistoryStartsAtZero(cpu, Exec(cpu, s, cs[0]), Travel(cpu, s, t, cs[0]), Due(cpu, h, t, cs[0]), cs[1..]);
    }
  }

  lemma {:induction false} SlotsStay(cpu: Cpu, s: Session, t: Timeline, cs: seq<Command>)
    requires Inv(cpu, s, t) && NoBudget(cs)
    ensures Run(cpu, s, cs).keyCap == s.keyCap
    decreases |cs|
  {
    if cs != [] {
      ExecKeepsInv(cpu, s, t, cs[0]);
      if cs[0].RewindBy? {
        RewindHoldsAll(cpu, s, t, cs[0].n);
      }
      SlotsStay(cpu, Exec(cpu, s, cs[0]), Travel(cpu, s, t, cs[0]), cs[1..]);
    }
  }

  /** How often a run steps onto a multiple of the interval. */
  function Crossings(cpu: Cpu, s: Session, cs: seq<Command>): nat
    decreases |cs|
  {
    if cs == [] then 0
    else
      (if cs[0].Step? && (s.stepCount + 1) % INTERVAL == 0 then 1 else 0)
      + Crossings(cpu, Exec(cpu, s, cs[0]), cs[1..])
  }

  function AtLeastOne(h: seq<Keyframe>): nat {
    if h == [] then 1 else |h|
  }

  lemma DueIsShort(cpu: Cpu, h: seq<Keyframe>, t: Timeline, c: Command)
    requires !c.Budget?
    ensures AtLeastOne(Due(cpu, h, t, c)) <= AtLeastOne(h) + if c.Step? && |t| % INTERVAL == 0 then 1 else 0
  {
  }

  lemma {:induction false} HistoryIsShort(cpu: Cpu, s: Session, t: Timeline, h: seq<Keyframe>, cs: seq<Command>)
    requires Inv(cpu, s, t) && NoBudget(cs)
    ensures AtLeastOne(History(cpu, s, t, h, cs)) <= AtLeastOne(h) + Crossings(cpu, s, cs)
    decreases |cs|
  {
    if cs != [] {
      var c, rest := cs[0], cs[1..];
      var s', t', h' := Exec(cpu, s, c), Travel(cpu, s, t, c), Due(cpu, h, t, c);
      ExecKeepsInv(cpu, s, t, c);
      DueIsShort(cpu, h, t, c);
      HistoryIsShort(cpu, s', t', h', rest);
      assert History(cpu, s, t, h, cs) == History(cpu, s', t', h', rest);
      assert Crossings(cpu, s, cs)
             == (if c.Step? && (s.stepCount + 1) % INTERVAL == 0 then 1 else 0) + Crossings(cpu, s', rest);
    }
  }

  /** A run that stepped onto fewer multiples of the interval than there are slots, however often it
      looked back: every `:rewind n` within it succeeds and lands on the timeline. */
  lemma EveryRewindSucceeds(cpu: Cpu, start: State, fineCap: nat, keyCap: nat, cs: seq<Command>, n: nat)
    requires keyCap >= 1 && NoBudget(cs)
    requires Crossings(cpu, Fresh(start, fineCap, keyCap), cs) < keyCap
    requires 1 <= n <= Run(cpu, Fresh(start, fineCap, keyCap), cs).stepCount
    ensures var s := Run(cpu, Fresh(start, fineCap, keyCap), cs);
            var t := RunTimeline(cpu, Fresh(start, fineCap, keyCap), [start], cs);
            var (s', report) := RewindCommand(cpu, s, n);
            && report !in {AlreadyThere, BeyondReach}
            && |t| == s.stepCount + 1 && s'.stepCount == s.stepCount - n && s'.live == t[s.stepCount - n]
  {
    var s := Run(cpu, Fresh(start, fineCap, keyCap), cs);
    ZeroIsHeld(cpu, start, fineCap, keyCap, cs);
    assert s.keyframes[0].step == 0 <= RewindTarget(s, n);
    RewindIsExact(cpu, start, fineCap, keyCap, cs, n);
  }

  lemma ZeroIsHeld(cpu: Cpu, start: State, fineCap: nat, keyCap: nat, cs: seq<Command>)
    requires keyCap >= 1 && NoBudget(cs)
    requires Crossings(cpu, Fresh(start, fineCap, keyCap), cs) < keyCap
    ensures var s := Run(cpu, Fresh(start, fineCap, keyCap), cs);
            s.stepCount > 0 ==> s.keyframes != [] && s.keyframes[0].step == 0
  {
    var s0 := Fresh(start, fineCap, keyCap);
    FreshIsOnTimeline(cpu, start, fineCap, keyCap);
    RingIsRecentHistory(cpu, start, fineCap, keyCap, cs);
    HistoryStartsAtZero(cpu, s0, [start], [], cs);
    HistoryIsShort(cpu, s0, [start], [], cs);
    SlotsStay(cpu, s0, [start], cs);
  }

  // ---------- the fine ring ----------

  function Times(c: Command, k: nat): seq<Command> {
    seq(k, _ => c)
  }

  lemma {:induction false} RunConcat(cpu: Cpu, s: Session, cs: seq<Command>, ds: seq<Command>)
    ensures Run(cpu, s, cs + ds) == Run(cpu, Run(cpu, s, cs), ds)
    decreases |cs|
  {
    if cs == [] {
      assert cs + ds == ds;
    } else {
      assert (cs + ds)[0] == cs[0] && (cs + ds)[1..] == cs[1..] + ds;
      RunConcat(cpu, Exec(cpu, s, cs[0]), cs[1..], ds);
    }
  }

  /** Steps fill the fine ring one by one up to its capacity and extend the timeline. */
  lemma {:induction false} StepsFill(cpu: Cpu, s: Session, t: Timeline, k: nat) returns (t': Timeline)
    requires Inv(cpu, s, t)
    ensures var s' := Run(cpu, s, Times(Step, k));
            && Inv(cpu, s', t') && s'.stepCount == s.stepCount + k && |t'| >= |t| && t'[..|t|] == t
            && s'.fineCap == s.fineCap
            && |s'.fine| == if |s.fine| + k <= s.fineCap then |s.fine| + k else s.fineCap
    decreases k
  {
    t' := t;
    if k > 0 {
      var next := t + [Next(cpu, Last(t))];
      assert Times(Step, k)[1..] == Times(Step, k - 1);
      ExecKeepsInv(cpu, s, t, Step);
      StepFillsOne(cpu, s);
      t' := StepsFill(cpu, Exec(cpu, s, Step), next, k - 1);
      assert t'[..|t|] == t'[..|next|][..|t|];
    }
  }

  lemma StepsKeepStart(cpu: Cpu, s: Session, t: Timeline, k: nat) returns (t': Timeline)
    requires Inv(cpu, s, t) && k <= s.fineCap
    ensures var s' := Run(cpu, s, Times(Step, k));
            && Inv(cpu, s', t') && s'.stepCount == s.stepCount + k && s.stepCount < |t'| && t'[s.stepCount] == s.live
            && |s'.fine| >= k
  {
    t' := StepsFill(cpu, s, t, k);
    assert t'[s.stepCount] == t'[..|t|][s.stepCount];
  }

  lemma StepFillsOne(cpu: Cpu, s: Session)
    requires |s.fine| <= s.fineCap
    ensures var s' := Exec(cpu, s, Step);
            && s'.stepCount == s.stepCount + 1 && s'.fineCap == s.fineCap
            && |s'.fine| == if |s.fine| < s.fineCap then |s.fine| + 1 else s.fineCap
  {
  }

  lemma {:induction false} BacksLand(cpu: Cpu, s: Session, t: Timeline, k: nat)
    requires Inv(cpu, s, t) && k <= |s.fine|
    ensures var s' := Run(cpu, s, Times(Back, k));
            s'.stepCount == s.stepCount - k && s'.live == t[s.stepCount - k]
    decreases k
  {
    if k > 0 {
      assert Times(Back, k)[1..] == Times(Back, k - 1);
      BackLands(cpu, s, t);
      ExecKeepsInv(cpu, s, t, Back);
      BacksLand(cpu, Exec(cpu, s, Back), Travel(cpu, s, t, Back), k - 1);
    }
  }

  /** Wherever a run has got to, as many steps as the fine ring holds are undone by as many presses
      of the back key. */
  lemma BacksUndoSteps(cpu: Cpu, s: Session, t: Timeline, k: nat)
    requires Inv(cpu, s, t) && k <= s.fineCap
    ensures var s' := Run(cpu, s, Times(Step, k) + Times(Back, k)); s'.live == s.live && s'.stepCount == s.stepCount
  {
    var forth := Run(cpu, s, Times(Step, k));
    var t' := StepsKeepStart(cpu, s, t, k);
    BacksLand(cpu, forth, t', k);
    RunConcat(cpu, s, Times(Step, k), Times(Back, k));
  }

  // ---------- what can be lost ----------

  function Toggles(k: nat): seq<Command> {
    if k == 0 then [] else [Back, Step] + Toggles(k - 1)
  }

  /** One step back from a multiple of the interval and forward again: the same session, with its
      keyframe pushed once more. */
  lemma ToggleOnce(cpu: Cpu, s: Session, t: Timeline)
    requires Inv(cpu, s, t) && s.stepCount > 0 && s.stepCount % INTERVAL == 0 && s.fine != []
    ensures Exec(cpu, Exec(cpu, s, Back), Step)
            == s.(keyframes := Pushed(s.keyframes, KeyframeAt(s.stepCount, s.live), s.keyCap))
  {
    var at := s.stepCount;
    BackLands(cpu, s, t);
    StepAgain(cpu, s, t, s.(live := t[at - 1], stepCount := at - 1, fine := s.fine[..|s.fine| - 1]));
  }

  lemma BackLands(cpu: Cpu, s: Session, t: Timeline)
    requires Inv(cpu, s, t) && s.stepCount > 0 && s.fine != []
    ensures Exec(cpu, s, Back)
            == s.(live := t[s.stepCount - 1], stepCount := s.stepCount - 1, fine := s.fine[..|s.fine| - 1])
  {
    PopManyLands(cpu, s, t, s.stepCount, 1);
    assert PopMany(s, 1) == PopMany(PopFine(s), 0) == PopFine(s);
  }

  lemma StepAgain(cpu: Cpu, s: Session, t: Timeline, back: Session)
    requires Inv(cpu, s, t) && s.stepCount > 0 && s.stepCount % INTERVAL == 0 && s.fine != []
    requires back == s.(live := t[s.stepCount - 1], stepCount := s.stepCount - 1, fine := s.fine[..|s.fine| - 1])
    ensures Exec(cpu, back, Step) == s.(keyframes := Pushed(s.keyframes, KeyframeAt(s.stepCount, s.live), s.keyCap))
  {
    RecordReturns(cpu, s, t, back);
    assert SeedKeyframe(back) == back;
  }

  lemma RecordReturns(cpu: Cpu, s: Session, t: Timeline, back: Session)
    requires Inv(cpu, s, t) && s.stepCount > 0 && s.fine != []
    requires back == s.(live := t[s.stepCount - 1], stepCount := s.stepCount - 1, fine := s.fine[..|s.fine| - 1])
    ensures Record(cpu, back) == s
  {
    var at := s.stepCount;
    assert t[at - 1 + 1] == Next(cpu, t[at - 1]);
    assert s.fine[|s.fine| - 1] == StepSnapshot(cpu, t[at - 1]);
    assert s.fine[..|s.fine| - 1] + [s.fine[|s.fine| - 1]] == s.fine;
  }

  /** Toggling there as often as the ring has slots pushes every older keyframe out, after which
      nothing beyond the fine ring can be reached. */
  lemma TogglingForgets(cpu: Cpu, s: Session, t: Timeline, k: nat, n: nat)
    requires Inv(cpu, s, t) && s.stepCount > 0 && s.stepCount % INTERVAL == 0 && s.fine != []
    requires k >= s.keyCap && |s.fine| < n <= s.stepCount
    ensures RewindCommand(cpu, Run(cpu, s, Toggles(k)), n).1 == BeyondReach
  {
    ManyToggles(cpu, s, t, k);
    var kfs := Run(cpu, s, Toggles(k)).keyframes;
    OnlyCopies(s.keyframes, KeyframeAt(s.stepCount, s.live), k, s.keyCap);
    NearestIsHeld(kfs, s.stepCount - n);
  }

  lemma OnlyCopies(kfs: seq<Keyframe>, kf: Keyframe, k: nat, cap: nat)
    requires k >= cap
    ensures var q := Recent(kfs + seq(k, _ => kf), cap); forall i | 0 <= i < |q| :: q[i] == kf
  {
  }

  lemma {:induction false} ManyToggles(cpu: Cpu, s: Session, t: Timeline, k: nat)
    requires Inv(cpu, s, t) && s.stepCount > 0 && s.stepCount % INTERVAL == 0 && s.fine != []
    ensures Run(cpu, s, Toggles(k))
            == s.(keyframes := Recent(s.keyframes + seq(k, _ => KeyframeAt(s.stepCount, s.live)), s.keyCap))
    decreases k
  {
    var kf := KeyframeAt(s.stepCount, s.live);
    if k == 0 {
      assert s.keyframes + seq(0, _ => kf) == s.keyframes;
    } else {
      var s' := s.(keyframes := Pushed(s.keyframes, kf, s.keyCap));
      RunToggles(cpu, s, k);
      ToggleOnce(cpu, s, t);
      ToggleKeepsInv(cpu, s, t);
      ManyToggles(cpu, s', t, k - 1);
      RecentOfRecent(s.keyframes, kf, k, s.keyCap);
    }
  }

  lemma ToggleKeepsInv(cpu: Cpu, s: Session, t: Timeline)
    requires Inv(cpu, s, t) && s.stepCount > 0 && s.stepCount % INTERVAL == 0
    ensures Inv(cpu, s.(keyframes := Pushed(s.keyframes, KeyframeAt(s.stepCount, s.live), s.keyCap)), t)
  {
    TruncateKeepsKeyframes(s.keyframes, t, s.stepCount);
    PushKeepsKeyframes(s.keyframes, t, KeyframeAt(s.stepCount, s.live), s.keyCap);
  }

  lemma RunToggles(cpu: Cpu, s: Session, k: nat)
    requires k > 0
    ensures Run(cpu, s, Toggles(k)) == Run(cpu, Exec(cpu, Exec(cpu, s, Back), Step), Toggles(k - 1))
  {
    var cs := Toggles(k);
    assert cs[0] == Back && cs[1..][0] == Step && cs[1..][1..] == Toggles(k - 1);
  }

  lemma RecentOfRecent(kfs: seq<Keyframe>, kf: Keyframe, k: nat, cap: nat)
    requires k > 0 && cap >= 1 && |kfs| <= cap
    ensures Recent(Pushed(kfs, kf, cap) + seq(k - 1, _ => kf), cap) == Recent(kfs + seq(k, _ => kf), cap)
  {
    assert kfs + seq(k, _ => kf) == kfs + [kf] + seq(k - 1, _ => kf);
  }

  // ---------- starting over ----------

  /** The `R` key leaves the session a fresh model would have on the reset machine, so that every run
      goes on from there as from the start. */
  lemma ResetStartsOver(cpu: Cpu, s: Session, cs: seq<Command>)
    ensures Run(cpu, s, [Reset] + cs) == Run(cpu, Fresh(ResetState(s.live), s.fineCap, s.keyCap), cs)
  {
    assert ([Reset] + cs)[1..] == cs;
  }

  /** A reset machine starts at the vector, low byte first, with cleared registers, the stack at $FD
      and interrupts masked; a second reset changes nothing more. */
  lemma ResetMachineStarts(s: State)
    ensures var r := ResetState(s);
            && r.regs.pc % 0x100 == s.ram[0xFFFC] && r.regs.pc / 0x100 == s.ram[0xFFFD]
            && r.regs.a == r.regs.x == r.regs.y == 0 && r.regs.sp == 0xFD && !r.regs.halted
            && (r.regs.p / 4) % 2 == 1 && (r.regs.p / 8) % 2 == 0
            && r.ram == s.ram && r.devices == s.devices && ResetState(r) == r
  {
  }

  /** Every megabyte of budget buys sixteen keyframes, up to a gigabyte; less than one is turned down,
      and nothing but the keyframe ring is touched. */
  lemma BudgetBuysSlots(s: Session, mb: int)
    ensures SetBudget(s, mb) == s.(keyframes := SetBudget(s, mb).keyframes, keyCap := SetBudget(s, mb).keyCap)
    ensures mb < 1 ==> SetBudget(s, mb) == s
    ensures 1 <= mb <= 1024 ==> SetBudget(s, mb).keyCap == 16 * mb
    ensures mb > 1024 ==> SetBudget(s, mb).keyCap == 16384
  {
  }
}
