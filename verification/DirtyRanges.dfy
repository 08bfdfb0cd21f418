/** Streaming of written memory to a remote mirror during a free run. */
module DirtyRanges {
  import opened Basics

  const SPACE := 0x1_0000

  /** A span as it travels. The end is sixteen bits wide, so a span that reaches the top of memory
      says 0; start and length are what counts. */
  datatype Span = Span(start: Word, end: Word, data: seq<Byte>)

  function Stop(r: Span): nat {
    r.start + |r.data|
  }

  /** A maximal run of marked addresses with the bytes they hold. */
  ghost predicate IsRun(r: Span, marks: seq<bool>, ram: seq<Byte>)
    requires |marks| == |ram| == SPACE
  {
    && |r.data| > 0 && Stop(r) <= SPACE && r.end == Stop(r) % SPACE
    && r.data == ram[r.start..Stop(r)]
    && (forall a | r.start <= a < Stop(r) :: marks[a])
    && (r.start > 0 ==> !marks[r.start - 1]) && (Stop(r) < SPACE ==> !marks[Stop(r)])
  }

  ghost predicate Within(spans: seq<Span>, a: nat) {
    exists k | 0 <= k < |spans| :: spans[k].start <= a < Stop(spans[k])
  }

  /** Sorted, disjoint, maximal, and covering exactly the marked addresses below `limit`. */
  ghost predicate Covers(spans: seq<Span>, marks: seq<bool>, ram: seq<Byte>, limit: nat)
    requires |marks| == |ram| == SPACE && limit <= SPACE
  {
    && (forall k | 0 <= k < |spans| :: IsRun(spans[k], marks, ram) && Stop(spans[k]) <= limit)
    && (forall j, k | 0 <= j < k < |spans| :: Stop(spans[j]) < spans[k].start)
    && (forall a: nat | a < limit :: marks[a] <==> Within(spans, a))
  }

  // ---------- the server side ----------

  class Tracker {
    const dirty: array<bool>
    var lo: int
    var hi: int

    /** The marks lie between the bounds. */
    ghost predicate Valid()
      reads this, dirty
    {
      && dirty.Length == SPACE
      && ((lo == SPACE && hi == -1) || 0 <= lo <= hi < SPACE)
      && forall a | 0 <= a < SPACE && dirty[a] :: lo <= a <= hi
    }

    constructor ()
      ensures Valid() && fresh(dirty) && forall a | 0 <= a < SPACE :: !dirty[a]
    {
      dirty := new bool[SPACE](_ => false);
      lo, hi := SPACE, -1;
    }

    /** A run starts from an empty bitmap. */
    method Arm()
      requires dirty.Length == SPACE
      modifies this, dirty
      ensures Valid() && forall a | 0 <= a < SPACE :: !dirty[a]
    {
      for i := 0 to SPACE
        invariant forall a | 0 <= a < i :: !dirty[a]
      {
        dirty[i] := false;
      }
      lo, hi := SPACE, -1;
    }

    /** The access hook, for writes. */
    method Mark(a: Word)
      requires Valid()
      modifies this, dirty
      ensures Valid() && dirty[..] == old(dirty[..])[a := true]
    {
      dirty[a] := true;
      if a < lo {
        lo := a;
      }
      if a > hi {
        hi := a;
      }
    }

    /** Coalesce the marks into spans with their current bytes and start over. */
    method Flush(ram: array<Byte>) returns (spans: seq<Span>)
      requires Valid() && ram.Length == SPACE
      modifies this, dirty
      ensures Valid() && forall a | 0 <= a < SPACE :: !dirty[a]
      ensures Covers(spans, old(dirty[..]), ram[..], SPACE)
    {
      spans := [];
      ghost var marks := dirty[..];
      if lo > hi {
        assert forall a | 0 <= a < SPACE :: !marks[a];
        return;
      }
      var i := lo;
      while i <= hi
        invariant lo <= i <= hi + 1 && lo == old(lo) && hi == old(hi)
        invariant Valid() && Pending(dirty[..], marks, i)
        invariant Covers(spans, marks, ram[..], i)
        invariant i == lo || i > hi || !marks[i - 1] || !marks[i]
      {
        if !dirty[i] {
          i := i + 1;
        } else {
          i, spans := TakeRun(ram, spans, i, marks);
        }
      }
      lo, hi := SPACE, -1;
    }

    /** Turn the run that starts here into a span. */
    method TakeRun(ram: array<Byte>, spans: seq<Span>, start: nat, ghost marks: seq<bool>)
      returns (i: nat, more: seq<Span>)
      requires Valid() && ram.Length == SPACE && lo <= start <= hi && dirty[start] && Pending(dirty[..], marks, start)
      requires Covers(spans, marks, ram[..], start) && (start > 0 ==> !marks[start - 1])
      modifies dirty
      ensures Valid() && start < i <= hi + 1 && Pending(dirty[..], marks, i)
      ensures Covers(more, marks, ram[..], i) && (i < SPACE ==> !marks[i])
    {
      i := ClearRun(start, marks);
      var data := Copy(ram, start, i);
      more := Appended(spans, Span(start, i % SPACE, data), marks, ram[..], start);
    }

    /** Clear the run of marks that starts here; the result is where it stops. */
    method ClearRun(start: nat, ghost marks: seq<bool>) returns (i: nat)
      requires Valid() && lo <= start <= hi && dirty[start] && Pending(dirty[..], marks, start)
      modifies dirty
      ensures Valid() && start < i <= hi + 1 && Pending(dirty[..], marks, i)
      ensures (forall a | start <= a < i :: marks[a]) && (i < SPACE ==> !marks[i])
    {
      i := start;
      while i <= hi && dirty[i]
        invariant start <= i <= hi + 1 && Valid() && Pending(dirty[..], marks, i)
        invariant forall a | start <= a < i :: marks[a]
      {
        dirty[i] := false;
        i := i + 1;
      }
    }
  }

  /** The marks from `i` on are still to be scanned, those below are gone. */
  ghost predicate Pending(now: seq<bool>, marks: seq<bool>, i: nat) {
    && |now| == |marks| == SPACE && i <= SPACE
    && (forall a | 0 <= a < i :: !now[a]) && now[i..] == marks[i..]
  }

  method Copy(ram: array<Byte>, start: nat, stop: nat) returns (data: seq<Byte>)
    requires start <= stop <= ram.Length
    ensures data == ram[start..stop]
  {
    data := [];
    for j := start to stop
      invariant data == ram[start..j]
    {
      data := data + [ram[j]];
    }
  }

  /** One more span, found by scanning from `start`. */
  function Appended(spans: seq<Span>, r: Span, ghost marks: seq<bool>,
                    ghost ram: seq<Byte>, ghost start: nat): (more: seq<Span>)
    requires |marks| == |ram| == SPACE && start == r.start && Stop(r) <= SPACE
    requires Covers(spans, marks, ram, start) && IsRun(r, marks, ram)
    ensures Covers(more, marks, ram, Stop(r))
  {
    var more := spans + [r];
    assert forall a: nat | a < Stop(r) :: marks[a] <==> Within(more, a) by {
      forall a: nat | a < Stop(r) ensures marks[a] <==> Within(more, a) {
        assert more[|spans|] == r;
        if a < start {
          assert marks[a] <==> Within(spans, a);
          if Within(spans, a) {
            var k :| 0 <= k < |spans| && spans[k].start <= a < Stop(spans[k]);
            assert more[k] == spans[k];
          }
        }
      }
    }
    more
  }

  // ---------- the mirror ----------

  /** Loading bytes at an address. */
  function Loaded(mirror: seq<Byte>, r: Span): seq<Byte>
    requires |mirror| == SPACE && Stop(r) <= SPACE
  {
    mirror[..r.start] + r.data + mirror[Stop(r)..]
  }

  method Load(mirror: array<Byte>, addr: Word, data: seq<Byte>)
    requires mirror.Length == SPACE && addr + |data| <= SPACE
    modifies mirror
    ensures mirror[..] == Loaded(old(mirror[..]), Span(addr, 0, data))
  {
    for i := 0 to |data|
      invariant mirror[..] == old(mirror[..])[..addr] + data[..i] + old(mirror[..])[addr + i..]
    {
      mirror[addr + i] := data[i];
    }
  }

  /** Loading a run brings its addresses in step and touches no others. */
  method LoadRun(mirror: array<Byte>, r: Span, ghost marks: seq<bool>, ghost ram: seq<Byte>)
    requires mirror.Length == |marks| == |ram| == SPACE && IsRun(r, marks, ram)
    modifies mirror
    ensures forall a | 0 <= a < SPACE :: mirror[a] == if r.start <= a < Stop(r) then ram[a] else old(mirror[a])
  {
    ghost var was := mirror[..];
    Load(mirror, r.start, r.data);
    forall a | 0 <= a < SPACE ensures mirror[a] == if r.start <= a < Stop(r) then ram[a] else was[a] {
      assert mirror[..][a] == mirror[a];
      assert r.start <= a < Stop(r) ==> r.data[a - r.start] == ram[a];
    }
  }

  /** The client applies every non-empty span in order. */
  method Apply(mirror: array<Byte>, spans: seq<Span>, ghost marks: seq<bool>, ghost ram: seq<Byte>)
    requires mirror.Length == |marks| == |ram| == SPACE && Covers(spans, marks, ram, SPACE)
    requires forall a | 0 <= a < SPACE && !marks[a] :: mirror[a] == ram[a]
    modifies mirror
    ensures mirror[..] == ram
  {
    for k := 0 to |spans|
      invariant forall a | 0 <= a < SPACE && !marks[a] :: mirror[a] == ram[a]
      invariant forall j, a | 0 <= j < k && spans[j].start <= a < Stop(spans[j]) :: mirror[a] == ram[a]
    {
      if |spans[k].data| > 0 {
        LoadRun(mirror, spans[k], marks, ram);
      }
    }
    forall a | 0 <= a < SPACE ensures mirror[a] == ram[a] {
      assert marks[a] ==> Within(spans, a);
    }
  }

  // ---------- a whole run ----------

  /** What happens during a run: the CPU writes (a frozen address keeps its byte but is marked all
      the same), or an event goes out and is applied. */
  datatype Action = Write(addr: Word, value: Byte) | Event

  /** The mirror may lag only where marks are pending. */
  ghost predicate InStep(mirror: seq<Byte>, ram: seq<Byte>, marks: seq<bool>)
    requires |mirror| == |ram| == |marks| == SPACE
  {
    forall a | 0 <= a < SPACE && !marks[a] :: mirror[a] == ram[a]
  }

  /** What one action does to memory. */
  function Effect(ram: seq<Byte>, frozen: set<Word>, action: Action): (r: seq<Byte>)
    requires |ram| == SPACE
    ensures |r| == SPACE
  {
    match action
    case Event => ram
    case Write(addr, value) => if addr in frozen then ram else ram[addr := value]
  }

  /** Memory after some of the run. */
  function After(ram: seq<Byte>, frozen: set<Word>, actions: seq<Action>): (r: seq<Byte>)
    requires |ram| == SPACE
    ensures |r| == SPACE
  {
    if actions == [] then ram
    else Effect(After(ram, frozen, actions[..|actions| - 1]), frozen, actions[|actions| - 1])
  }

  /** The mirror after some of the run: memory as it is at an event, and as before at a write. */
  function MirrorAfter(ram: seq<Byte>, frozen: set<Word>, actions: seq<Action>): (r: seq<Byte>)
    requires |ram| == SPACE
    ensures |r| == SPACE
  {
    if actions == [] then ram
    else if actions[|actions| - 1].Event? then After(ram, frozen, actions)
    else MirrorAfter(ram, frozen, actions[..|actions| - 1])
  }

  /** Between events the mirror shows memory as it was at the last one. */
  lemma {:induction false} MirrorIsLastEvent(ram: seq<Byte>, frozen: set<Word>, actions: seq<Action>, n: nat)
    requires |ram| == SPACE && n <= |actions|
    requires n == 0 || actions[n - 1].Event?
    requires forall k | n <= k < |actions| :: actions[k].Write?
    ensures MirrorAfter(ram, frozen, actions) == After(ram, frozen, actions[..n])
    decreases |actions|
  {
    if n < |actions| {
      var shorter := actions[..|actions| - 1];
      MirrorIsLastEvent(ram, frozen, shorter, n);
      assert shorter[..n] == actions[..n];
    } else {
      assert actions[..n] == actions;
    }
  }

  lemma AfterOneMore(ram: seq<Byte>, frozen: set<Word>, actions: seq<Action>, n: nat)
    requires |ram| == SPACE && n < |actions|
    ensures After(ram, frozen, actions[..n + 1]) == Effect(After(ram, frozen, actions[..n]), frozen, actions[n])
    ensures MirrorAfter(ram, frozen, actions[..n + 1])
            == if actions[n].Event? then After(ram, frozen, actions[..n + 1])
               else MirrorAfter(ram, frozen, actions[..n])
  {
    assert actions[..n + 1][..n] == actions[..n];
  }

  /** A run so far. The mirror agrees with memory after every event, whatever was written before it,
      and keeps what it showed in between; where it lags there are marks. */
  method Follow(tracker: Tracker, ram: array<Byte>, mirror: array<Byte>, frozen: set<Word>, actions: seq<Action>)
    requires tracker.dirty.Length == ram.Length == mirror.Length == SPACE && ram != mirror
    requires mirror[..] == ram[..]
    modifies tracker, tracker.dirty, ram, mirror
    ensures tracker.Valid() && InStep(mirror[..], ram[..], tracker.dirty[..])
    ensures ram[..] == After(old(ram[..]), frozen, actions)
    ensures mirror[..] == MirrorAfter(old(ram[..]), frozen, actions)
  {
    ghost var start := ram[..];
    tracker.Arm();
    for n := 0 to |actions|
      invariant tracker.Valid() && InStep(mirror[..], ram[..], tracker.dirty[..])
      invariant ram[..] == After(start, frozen, actions[..n])
      invariant mirror[..] == MirrorAfter(start, frozen, actions[..n])
    {
      AfterOneMore(start, frozen, actions, n);
      Act(tracker, ram, mirror, frozen, actions[n]);
    }
    assert actions[..|actions|] == actions;
  }

  /** A whole run, with the copy of all of memory that closes it. */
  method Stream(tracker: Tracker, ram: array<Byte>, mirror: array<Byte>, frozen: set<Word>, actions: seq<Action>)
    requires tracker.dirty.Length == ram.Length == mirror.Length == SPACE && ram != mirror
    requires mirror[..] == ram[..]
    modifies tracker, tracker.dirty, ram, mirror
    ensures mirror[..] == ram[..] == After(old(ram[..]), frozen, actions)
  {
    Follow(tracker, ram, mirror, frozen, actions);
    Refresh(mirror, ram);
  }

  /** One write by the CPU, or one event. */
  method Act(tracker: Tracker, ram: array<Byte>, mirror: array<Byte>, frozen: set<Word>, action: Action)
    requires tracker.Valid() && ram.Length == mirror.Length == SPACE && ram != mirror
    requires InStep(mirror[..], ram[..], tracker.dirty[..])
    modifies tracker, tracker.dirty, ram, mirror
    ensures tracker.Valid() && InStep(mirror[..], ram[..], tracker.dirty[..])
    ensures match action
            case Event => mirror[..] == ram[..]
            case Write(_, _) => mirror[..] == old(mirror[..])
    ensures ram[..] == Effect(old(ram[..]), frozen, action)
  {
    match action {
      case Write(addr, value) =>
        if addr !in frozen {
          ram[addr] := value;
        }
        tracker.Mark(addr);
      case Event =>
        SendEvent(tracker, ram, mirror);
    }
  }

  /** What the client does when the run stops: read all of memory afresh. */
  method Refresh(mirror: array<Byte>, ram: array<Byte>)
    requires ram.Length == mirror.Length == SPACE && ram != mirror
    modifies mirror
    ensures mirror[..] == ram[..]
  {
    Load(mirror, 0, ram[..]);
  }

  /** Flush on one side, apply on the other. */
  method SendEvent(tracker: Tracker, ram: array<Byte>, mirror: array<Byte>)
    requires tracker.Valid() && ram.Length == mirror.Length == SPACE && ram != mirror
    requires InStep(mirror[..], ram[..], tracker.dirty[..])
    modifies tracker, tracker.dirty, mirror
    ensures tracker.Valid() && mirror[..] == ram[..] && forall a | 0 <= a < SPACE :: !tracker.dirty[a]
  {
    ghost var marks, bytes := tracker.dirty[..], ram[..];
    var spans := tracker.Flush(ram);
    Apply(mirror, spans, marks, bytes);
  }

  /** The spans of a set of marks are determined: any two lists with these properties are equal. */
  lemma {:induction false} CoversDetermines(one: seq<Span>, two: seq<Span>, marks: seq<bool>, ram: seq<Byte>)
    requires |marks| == |ram| == SPACE && Covers(one, marks, ram, SPACE) && Covers(two, marks, ram, SPACE)
    ensures one == two
  {
    if |one| <= |two| {
      SamePrefix(one, two, marks, ram, |one|);
      NoneLeft(one, two, marks, ram);
    } else {
      SamePrefix(two, one, marks, ram, |two|);
      NoneLeft(two, one, marks, ram);
    }
  }

  lemma {:induction false} SamePrefix(one: seq<Span>, two: seq<Span>, marks: seq<bool>, ram: seq<Byte>, n: nat)
    requires |marks| == |ram| == SPACE && Covers(one, marks, ram, SPACE) && Covers(two, marks, ram, SPACE)
    requires n <= |one| && n <= |two|
    ensures forall i | 0 <= i < n :: one[i] == two[i]
  {
    if n > 0 {
      SamePrefix(one, two, marks, ram, n - 1);
      SameNext(one, two, marks, ram, n - 1);
    }
  }

  lemma SameNext(one: seq<Span>, two: seq<Span>, marks: seq<bool>, ram: seq<Byte>, k: nat)
    requires |marks| == |ram| == SPACE && Covers(one, marks, ram, SPACE) && Covers(two, marks, ram, SPACE)
    requires k < |one| && k < |two| && forall i | 0 <= i < k :: one[i] == two[i]
    ensures one[k] == two[k]
  {
    StartsNoLater(one, two, marks, ram, k);
    StartsNoLater(two, one, marks, ram, k);
    SameStop(one[k], two[k], marks, ram);
  }

  /** Span k of one list cannot start before span k of the other when all earlier ones agree. */
  lemma StartsNoLater(one: seq<Span>, two: seq<Span>, marks: seq<bool>, ram: seq<Byte>, k: nat)
    requires |marks| == |ram| == SPACE && Covers(one, marks, ram, SPACE) && Covers(two, marks, ram, SPACE)
    requires k < |one| && k < |two| && forall i | 0 <= i < k :: one[i] == two[i]
    ensures two[k].start <= one[k].start
  {
    var a := one[k].start;
    assert IsRun(one[k], marks, ram) && marks[a] && Within(two, a);
    var j :| 0 <= j < |two| && two[j].start <= a < Stop(two[j]);
  }

  /** Two runs with the same start are the same run. */
  lemma SameStop(r: Span, s: Span, marks: seq<bool>, ram: seq<Byte>)
    requires |marks| == |ram| == SPACE && IsRun(r, marks, ram) && IsRun(s, marks, ram)
    requires r.start == s.start
    ensures r == s
  {
    assert Stop(r) == Stop(s);
  }

  /** A list that agrees with a longer one leaves the longer one's next span uncovered. */
  lemma NoneLeft(one: seq<Span>, two: seq<Span>, marks: seq<bool>, ram: seq<Byte>)
    requires |marks| == |ram| == SPACE && Covers(one, marks, ram, SPACE) && Covers(two, marks, ram, SPACE)
    requires |one| <= |two| && one == two[..|one|]
    ensures one == two
  {
    if |two| > 0 {
      var r := two[if |one| < |two| then |one| else 0];
      assert IsRun(r, marks, ram) && marks[r.start] && Within(one, r.start);
      NextIsOutside(one, two);
    }
  }

  lemma NextIsOutside(one: seq<Span>, two: seq<Span>)
    requires |one| <= |two| && one == two[..|one|]
    requires forall j, k | 0 <= j < k < |two| :: Stop(two[j]) < two[k].start
    ensures |one| < |two| ==> !Within(one, two[|one|].start)
  {
  }
}
