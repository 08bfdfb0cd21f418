/** The 65816 block moves on flat memory. */
module BlockMove {
  import opened Basics

  const BANK := 0x1_0000
  const MEMORY := 0x100_0000

  /** The offset `i` bytes along from `base`, upwards (step 1) or downwards (step -1). */
  function Along(base: Word, i: int, step: int): Word {
    (base + step * i) % BANK
  }

  function Address(bank: Byte, offset: Word): (a: nat)
    ensures a < MEMORY
  {
    bank * BANK + offset
  }

  /** How far the destination runs ahead of the source. */
  function Lead(x: Word, y: Word, step: int): Word {
    (step * (y - x)) % BANK
  }

  /** Which source byte ends up in destination byte `i`: when the move overtakes its own source
      the first `lead` bytes repeat. */
  function SourceIndex(sameBank: bool, lead: nat, i: nat): nat {
    if sameBank && lead >= 1 then i % lead else i
  }

  lemma Positions(x: Word, y: Word, step: int, i: nat, j: nat)
    requires step in {1, -1} && i < BANK && j < BANK
    ensures Along(x, i, step) == Along(y, j, step) <==> (i - j) % BANK == Lead(x, y, step)
  {
    if step == 1 {
      ModEqual(x + i, y + j, i - j, y - x);
    } else {
      ModEqual(y - j, x - i, i - j, x - y);
      assert Lead(x, y, step) == (x - y) % BANK;
    }
  }

  /** Two sums agree modulo the bank size exactly when their difference does. */
  lemma ModEqual(p: int, q: int, d: int, e: int)
    requires p - q == d - e
    ensures p % BANK == q % BANK <==> d % BANK == e % BANK
  {
    assert p == BANK * (p / BANK) + p % BANK && q == BANK * (q / BANK) + q % BANK;
    assert d == BANK * (d / BANK) + d % BANK && e == BANK * (e / BANK) + e % BANK;
  }

  /** Destination offsets of one move are all different. */
  lemma Distinct(y: Word, step: int, i: nat, j: nat)
    requires step in {1, -1} && i < BANK && j < BANK
    ensures Along(y, i, step) == Along(y, j, step) <==> i == j
  {
    Positions(y, y, step, i, j);
  }

  /** The source offset of byte `n` is an earlier destination offset exactly `lead` bytes back. */
  lemma Overtaken(x: Word, y: Word, step: int, n: nat, i: nat)
    requires step in {1, -1} && i < n < BANK
    ensures Along(x, n, step) == Along(y, i, step) <==> n - i == Lead(x, y, step)
  {
    Positions(x, y, step, n, i);
  }

  /** The closed form repeats with period `lead`. */
  lemma SourcePeriod(sameBank: bool, lead: nat, n: nat)
    ensures sameBank && 1 <= lead <= n ==> SourceIndex(sameBank, lead, n) == SourceIndex(sameBank, lead, n - lead)
    ensures !(sameBank && 1 <= lead <= n) ==> SourceIndex(sameBank, lead, n) == n
  {
    if sameBank && 1 <= lead <= n {
      var q, r := (n - lead) / lead, (n - lead) % lead;
      assert lead * (q + 1) == lead * q + lead;
      Remainder(n, lead, q + 1, r);
    } else if sameBank && 1 <= lead {
      Remainder(n, lead, 0, n);
    }
  }

  lemma Remainder(n: nat, d: nat, q: int, r: nat)
    requires d > 0 && n == d * q + r && r < d
    ensures n % d == r
  {
    var p := n / d;
    assert n == d * p + n % d;
    assert d * (p - q) == d * p - d * q;
    SmallMultiple(d, p - q);
  }

  lemma SmallMultiple(d: int, k: int)
    requires d > 0 && 0 - d < d * k < d
    ensures k == 0
  {
    Grows(d, if k > 0 then k else if k < 0 then -k else 1);
  }

  lemma {:induction false} Grows(d: nat, k: nat)
    requires k >= 1
    ensures d * k >= d
  {
    if k > 1 {
      Grows(d, k - 1);
      assert d * k == d * (k - 1) + d;
    }
  }

  /** MVN (step 1) and MVP (step -1) of c + 1 bytes from bank `src` to bank `dst`, in place. The
      count ends at $FFFF, both indexes have moved by c + 1, and only the destination is written:
      it receives the source as it was, except that a same-bank move whose destination leads the
      source by 1..c bytes repeats the first `lead` source bytes. */
  method Move(mem: array<Byte>, c: Word, x: Word, y: Word, dst: Byte, src: Byte, step: int)
    returns (c1: Word, x1: Word, y1: Word, cycles: nat)
    requires mem.Length == MEMORY && step in {1, -1}
    modifies mem
    ensures c1 == 0xFFFF && cycles == 7 * (c + 1)
    ensures x1 == Along(x, c + 1, step) && y1 == Along(y, c + 1, step)
    ensures Moved(mem[..], old(mem[..]), dst, src, x, y, step, c + 1)
  {
    c1, x1, y1, cycles := c, x, y, 7 * (c + 1);
    ghost var done := 0;
    ghost var was := mem[..];
    var finished := false;
    while !finished
      invariant 0 <= done <= c + 1
      invariant if finished then done == c + 1 && c1 == 0xFFFF else done <= c && c1 == c - done
      invariant x1 == Along(x, done, step) && y1 == Along(y, done, step)
      invariant Moved(mem[..], was, dst, src, x, y, step, done)
      decreases c + 1 - done
    {
      MoveByte(mem, was, dst, src, x, y, step, done, x1, y1);
      x1, y1 := Next(x, done, step, x1), Next(y, done, step, y1);
      finished := c1 == 0;
      c1 := if finished then 0xFFFF else c1 - 1;
      done := done + 1;
    }
  }

  /** One byte, with the indexes `n` places along. */
  method MoveByte(mem: array<Byte>, ghost was: seq<Byte>, dst: Byte, src: Byte, ghost x: Word, ghost y: Word,
                  ghost step: int, ghost n: nat, from: Word, to: Word)
    requires step in {1, -1} && n < BANK && from == Along(x, n, step) && to == Along(y, n, step)
    requires Moved(mem[..], was, dst, src, x, y, step, n)
    modifies mem
    ensures Moved(mem[..], was, dst, src, x, y, step, n + 1)
  {
    MoveOne(mem[..], was, dst, src, x, y, step, n);
    mem[Address(dst, to)] := mem[Address(src, from)];
  }

  /** The index register after one more step, wrapping within the bank. */
  function Next(ghost base: Word, ghost i: nat, step: int, at: Word): (next: Word)
    requires step in {1, -1} && at == Along(base, i, step)
    ensures next == Along(base, i + 1, step)
  {
    assert base + step * i == BANK * ((base + step * i) / BANK) + at;
    ModEqual(at + step, base + step * (i + 1), at, base + step * i);
    (at + step) % BANK
  }

  /** The first `n` bytes have been moved and nothing else was written. */
  ghost predicate Moved(now: seq<Byte>, was: seq<Byte>, dst: Byte, src: Byte, x: Word, y: Word, step: int, n: nat) {
    && |now| == |was| == MEMORY
    && (forall i | 0 <= i < n ::
          now[Address(dst, Along(y, i, step))]
          == was[Address(src, Along(x, SourceIndex(src == dst, Lead(x, y, step), i), step))])
    && (forall a: nat | a < MEMORY ::
          (forall i | 0 <= i < n :: a != Address(dst, Along(y, i, step))) ==> now[a] == was[a])
  }

  /** The byte about to be read is the one the closed form asks for. */
  lemma NextSource(now: seq<Byte>, was: seq<Byte>, dst: Byte, src: Byte, x: Word, y: Word, step: int, n: nat)
    requires step in {1, -1} && n < BANK
    requires Moved(now, was, dst, src, x, y, step, n)
    ensures now[Address(src, Along(x, n, step))]
            == was[Address(src, Along(x, SourceIndex(src == dst, Lead(x, y, step), n), step))]
  {
    var lead := Lead(x, y, step);
    SourcePeriod(src == dst, lead, n);
    if src == dst && 1 <= lead <= n {
      Overtaken(x, y, step, n, n - lead);
    } else {
      forall i | 0 <= i < n ensures Address(src, Along(x, n, step)) != Address(dst, Along(y, i, step)) {
        Overtaken(x, y, step, n, i);
        SameAddress(src, Along(x, n, step), dst, Along(y, i, step));
      }
    }
  }

  lemma SameAddress(b0: Byte, o0: Word, b1: Byte, o1: Word)
    ensures Address(b0, o0) == Address(b1, o1) <==> b0 == b1 && o0 == o1
  {
  }

  lemma MoveOne(now: seq<Byte>, was: seq<Byte>, dst: Byte, src: Byte, x: Word, y: Word, step: int, n: nat)
    requires step in {1, -1} && n < BANK
    requires Moved(now, was, dst, src, x, y, step, n)
    ensures var next := now[Address(dst, Along(y, n, step)) := now[Address(src, Along(x, n, step))]];
            Moved(next, was, dst, src, x, y, step, n + 1)
  {
    NextSource(now, was, dst, src, x, y, step, n);
    var next := now[Address(dst, Along(y, n, step)) := now[Address(src, Along(x, n, step))]];
    forall i | 0 <= i < n + 1
      ensures next[Address(dst, Along(y, i, step))]
              == was[Address(src, Along(x, SourceIndex(src == dst, Lead(x, y, step), i), step))]
    {
      Distinct(y, step, i, n);
    }
    forall a: nat | a < MEMORY && forall i | 0 <= i < n + 1 :: a != Address(dst, Along(y, i, step))
      ensures next[a] == was[a]
    {
      assert a != Address(dst, Along(y, n, step));
    }
  }

  predicate Overlaps(dst: Byte, src: Byte, x: Word, y: Word, step: int, c: Word) {
    src == dst && 1 <= Lead(x, y, step) <= c
  }

  /** Away from the overlapping case the destination is a faithful copy, whatever memory held. */
  lemma FaithfulUnlessOverlapping(now: seq<Byte>, was: seq<Byte>,
                                  dst: Byte, src: Byte, x: Word, y: Word, step: int, c: Word)
    requires step in {1, -1} && Moved(now, was, dst, src, x, y, step, c + 1)
    requires !Overlaps(dst, src, x, y, step, c)
    ensures forall i | 0 <= i <= c :: now[Address(dst, Along(y, i, step))] == was[Address(src, Along(x, i, step))]
  {
    forall i | 0 <= i <= c
      ensures now[Address(dst, Along(y, i, step))] == was[Address(src, Along(x, i, step))]
    {
      SourcePeriod(src == dst, Lead(x, y, step), i);
    }
  }

  /** In the overlapping case some memory is not copied faithfully, so the condition is exact. */
  lemma OverlapCorrupts(dst: Byte, src: Byte, x: Word, y: Word, step: int, c: Word)
    returns (now: seq<Byte>, was: seq<Byte>)
    requires step in {1, -1} && Overlaps(dst, src, x, y, step, c)
    ensures Moved(now, was, dst, src, x, y, step, c + 1)
    ensures exists i | 0 <= i <= c ::
              now[Address(dst, Along(y, i, step))] != was[Address(src, Along(x, i, step))]
  {
    var lead := Lead(x, y, step);
    var late := Address(src, Along(x, lead, step));
    was := seq(MEMORY, a => if a == late then 1 else 0);
    now := MoveAll(was, dst, src, x, y, step, c + 1);
    SourcePeriod(src == dst, lead, lead);
    SourcePeriod(src == dst, lead, 0);
    Distinct(x, step, lead, 0);
    SameAddress(src, Along(x, lead, step), src, Along(x, 0, step));
    assert now[Address(dst, Along(y, lead, step))] != was[late];
  }

  lemma {:induction false} MoveAll(was: seq<Byte>, dst: Byte, src: Byte, x: Word, y: Word, step: int, n: nat)
    returns (now: seq<Byte>)
    requires step in {1, -1} && n <= BANK && |was| == MEMORY
    ensures Moved(now, was, dst, src, x, y, step, n)
  {
    if n == 0 {
      now := was;
    } else {
      var before := MoveAll(was, dst, src, x, y, step, n - 1);
      MoveOne(before, was, dst, src, x, y, step, n - 1);
      now := before[Address(dst, Along(y, n - 1, step)) := before[Address(src, Along(x, n - 1, step))]];
    }
  }
}
