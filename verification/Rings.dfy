/** The two circular buffers behind rewind, each shown to be the bounded queue of module Rewind. */
module Rings {
  import opened Basics
  import opened Rewind

  /** The slot `back` places behind the next-write index. */
  function Slot(cap: nat, head: nat, back: nat): nat
    requires head < cap && 1 <= back <= cap
    ensures Slot(cap, head, back) < cap
  {
    if back <= head then head - back else head + cap - back
  }

  /** Entries oldest first: the oldest lies `size` places behind the head. */
  function Entries<T>(buf: seq<T>, head: nat, size: nat): (q: seq<T>)
    requires head < |buf| && size <= |buf|
    ensures |q| == size
  {
    seq(size, i requires 0 <= i < size => buf[Slot(|buf|, head, size - i)])
  }

  lemma Wrap(x: nat, cap: nat)
    requires 0 < cap && x < 2 * cap
    ensures x % cap == if x < cap then x else x - cap
  {
    if x >= cap {
      assert x == cap * 1 + (x - cap);
      assert (x - cap) % cap == x - cap;
    }
  }

  lemma PushEntries<T>(buf: seq<T>, head: nat, size: nat, x: T)
    requires head < |buf| && size <= |buf|
    ensures var cap := |buf|;
            var size' := if size < cap then size + 1 else size;
            Entries(buf[head := x], (head + 1) % cap, size') == Pushed(Entries(buf, head, size), x, cap)
  {
    var cap := |buf|;
    var size' := if size < cap then size + 1 else size;
    Wrap(head + 1, cap);
    var head' := (head + 1) % cap;
    var q := Entries(buf, head, size);
    var q' := Entries(buf[head := x], head', size');
    forall i | 0 <= i < size' - 1 ensures q'[i] == q[size + 1 - size' + i] {
      var back := size' - i;
      assert Slot(cap, head', back) == Slot(cap, head, back - 1) != head;
    }
    assert Slot(cap, head', 1) == head;
    assert q' == q[size + 1 - size'..] + [x];
  }

  lemma PopEntries<T>(buf: seq<T>, head: nat, size: nat)
    requires head < |buf| && 0 < size <= |buf|
    ensures var q := Entries(buf, head, size);
            var head' := (head - 1 + |buf|) % |buf|;
            head' < |buf| && buf[head'] == q[size - 1] && Entries(buf, head', size - 1) == q[..size - 1]
  {
    var cap := |buf|;
    Wrap(head - 1 + cap, cap);
    var head' := (head - 1 + cap) % cap;
    assert head' == Slot(cap, head, 1);
    forall i | 0 <= i < size - 1 ensures Entries(buf, head', size - 1)[i] == Entries(buf, head, size)[i] {
      assert Slot(cap, head', size - 1 - i) == Slot(cap, head, size - i);
    }
  }

  class SnapshotRing {
    const buf: array<Snapshot>
    const cap: nat
    var head: nat
    var size: nat

    ghost predicate Valid()
      reads this
    {
      buf.Length == cap && head < cap && size <= cap
    }

    ghost function Contents(): (q: seq<Snapshot>)
      requires Valid()
      reads this, buf
    {
      Entries(buf[..], head, size)
    }

    constructor (cap: nat)
      requires cap > 0
      ensures Valid() && fresh(buf) && this.cap == cap && Contents() == []
    {
      buf := new Snapshot[cap];
      this.cap, head, size := cap, 0, 0;
    }

    method Push(s: Snapshot)
      requires Valid()
      modifies this, buf
      ensures Valid()
      ensures Contents() == Pushed(old(Contents()), s, cap)
    {
      PushEntries(buf[..], head, size, s);
      buf[head] := s;
      head := (head + 1) % cap;
      if size < cap {
        size := size + 1;
      }
    }

    /** Takes back the newest entry; None when the ring is empty. */
    method Pop() returns (r: Option<Snapshot>)
      requires Valid()
      modifies this
      ensures Valid()
      ensures old(Contents()) == [] ==> r == None && Contents() == []
      ensures old(Contents()) != [] ==>
                r == Some(old(Contents())[|old(Contents())| - 1])
                 && Contents() == old(Contents())[..|old(Contents())| - 1]
    {
      if size == 0 {
        return None;
      }
      PopEntries(buf[..], head, size);
      head := (head - 1 + cap) % cap;
      r := Some(buf[head]);
      size := size - 1;
    }

    method Reset()
      requires Valid()
      modifies this
      ensures Valid() && Contents() == []
    {
      head, size := 0, 0;
    }
  }

  class KeyframeRing {
    const buf: array<Keyframe>
    const cap: nat
    var head: nat
    var size: nat

    ghost predicate Valid()
      reads this
    {
      buf.Length == cap && head < cap && size <= cap
    }

    ghost function Contents(): (q: seq<Keyframe>)
      requires Valid()
      reads this, buf
    {
      Entries(buf[..], head, size)
    }

    /** A positive budget always yields at least one slot. */
    constructor (budgetBytes: nat)
      requires budgetBytes > 0
      ensures Valid() && fresh(buf) && Contents() == []
      ensures cap == KeyframeCap(budgetBytes)
      ensures cap * KEYFRAME_BYTES <= budgetBytes < (cap + 1) * KEYFRAME_BYTES
              || (cap == 1 && budgetBytes < KEYFRAME_BYTES)
    {
      var c := budgetBytes / KEYFRAME_BYTES;
      if c < 1 {
        c := 1;
      }
      buf := new Keyframe[c];
      cap, head, size := c, 0, 0;
    }

    method Push(kf: Keyframe)
      requires Valid()
      modifies this, buf
      ensures Valid()
      ensures Contents() == Pushed(old(Contents()), kf, cap)
    {
      PushEntries(buf[..], head, size, kf);
      buf[head] := kf;
      head := (head + 1) % cap;
      if size < cap {
        size := size + 1;
      }
    }

    /** Scans newest first for the first keyframe at or below the target. */
    method FindNearest(target: nat) returns (r: Option<Keyframe>)
      requires Valid()
      ensures r == Nearest(Contents(), target)
    {
      ghost var q := Contents();
      assert q[..size] == q;
      for i := 0 to size
        invariant Nearest(q, target) == Nearest(q[..size - i], target)
      {
        Wrap(head - 1 - i + cap, cap);
        var idx := (head - 1 - i + cap) % cap;
        assert idx == Slot(cap, head, i + 1);
        assert buf[idx] == q[size - 1 - i];
        assert q[..size - i][..size - i - 1] == q[..size - 1 - i];
        if buf[idx].step <= target {
          return Some(buf[idx]);
        }
      }
      return None;
    }

    /** The step of the entry pushed longest ago. */
    method Oldest() returns (r: Option<nat>)
      requires Valid()
      ensures r == if Contents() == [] then None else Some(Contents()[0].step)
    {
      if size == 0 {
        return None;
      }
      Wrap(head - size + cap, cap);
      var idx := (head - size + cap) % cap;
      assert idx == Slot(cap, head, size);
      r := Some(buf[idx].step);
    }

    method Reset()
      requires Valid()
      modifies this
      ensures Valid() && Contents() == []
    {
      head, size := 0, 0;
    }
  }

  /** No ring at all for a budget of zero or less: deep rewind is off. */
  method NewKeyframeRing(budgetBytes: int) returns (ring: KeyframeRing?)
    ensures ring == null <==> budgetBytes <= 0
    ensures ring != null ==> fresh(ring) && fresh(ring.buf) && ring.Valid() && ring.Contents() == []
    ensures ring != null ==> ring.cap == KeyframeCap(budgetBytes)
    ensures ring != null ==> ring.cap * KEYFRAME_BYTES <= budgetBytes < (ring.cap + 1) * KEYFRAME_BYTES
                             || (ring.cap == 1 && budgetBytes < KEYFRAME_BYTES)
  {
    if budgetBytes <= 0 {
      return null;
    }
    ring := new KeyframeRing(budgetBytes);
  }
}
