/** Backward disassembly: which instruction starts lead up to an address. */
module WalkBack {
  import opened Basics
  import Opcodes

  const MAX_LOOK := 64

  /** Decoded instruction lengths, at least one byte everywhere. */
  type Sizes = f: Word -> nat | forall a: Word :: f(a) >= 1 witness (_ => 1)

  /** Consecutive instructions without gaps, the last one ending at `pc`. */
  ghost predicate Chain(size: Sizes, s: seq<Word>, pc: Word) {
    && s != []
    && (forall i, j | 0 <= i && j == i + 1 < |s| :: s[i] + size(s[i]) == s[j])
    && s[|s| - 1] + size(s[|s| - 1]) == pc
  }

  ghost predicate InReach(s: seq<Word>, pc: Word) {
    s != [] && pc - MAX_LOOK <= s[0] < pc
  }

  /** More instructions win; among equals the earlier start. */
  predicate Beats(s: seq<Word>, t: seq<Word>) {
    |s| > |t| || (|s| == |t| && s != [] && s[0] < t[0])
  }

  /** The winner among all chains that start at or after `from`; empty when there is none. */
  ghost predicate Best(size: Sizes, s: seq<Word>, pc: Word, from: int) {
    && (s != [] ==> Chain(size, s, pc) && InReach(s, pc) && s[0] >= from)
    && forall t: seq<Word> :: Chain(size, t, pc) && InReach(t, pc) && t[0] >= from ==> t == s || Beats(s, t)
  }

  function LastOf(s: seq<Word>, n: nat): seq<Word> {
    if |s| > n then s[|s| - n..] else s
  }

  // ---------- chains ----------

  /** Forward decoding from a start, if it meets `pc`. */
  function Walk(size: Sizes, cur: Word, pc: Word): Option<seq<Word>>
    decreases pc - cur
  {
    if cur == pc then Some([])
    else if cur + size(cur) > pc then None
    else match Walk(size, cur + size(cur), pc)
      case None => None
      case Some(s) => Some([cur] + s)
  }

  /** Decoding forward finds a chain exactly when one starts there, and there is only one. */
  lemma {:induction false} WalkFindsChain(size: Sizes, s: seq<Word>, cur: Word, pc: Word)
    requires cur < pc
    ensures (Chain(size, s, pc) && s[0] == cur) <==> Walk(size, cur, pc) == Some(s)
    decreases pc - cur
  {
    var next := cur + size(cur);
    if s != [] && s[0] == cur {
      if |s| == 1 {
        if next < pc {
          WalkStarts(size, next, pc);
          assert Walk(size, next, pc).Some? ==> |[cur] + Walk(size, next, pc).value| > |s|;
        }
        assert s == [cur] == [cur] + [];
      } else {
        var rest := s[1..];
        assert s == [cur] + rest;
        if next < pc {
          WalkFindsChain(size, rest, next, pc);
          ChainTail(size, s, pc);
        } else if Chain(size, s, pc) {
          ChainAscends(size, s, pc, 1);
        }
      }
    } else if next < pc {
      WalkStarts(size, next, pc);
    }
  }

  lemma WalkStarts(size: Sizes, cur: Word, pc: Word)
    requires cur < pc
    ensures Walk(size, cur, pc).Some? ==> Walk(size, cur, pc).value != [] && Walk(size, cur, pc).value[0] == cur
  {
  }

  lemma ChainTail(size: Sizes, s: seq<Word>, pc: Word)
    requires |s| > 1
    ensures Chain(size, s, pc) <==> s[0] + size(s[0]) == s[1] && Chain(size, s[1..], pc)
  {
    var t := s[1..];
    if s[0] + size(s[0]) == s[1] && Chain(size, t, pc) {
      forall i, j | 0 <= i && j == i + 1 < |s| ensures s[i] + size(s[i]) == s[j] {
        if i > 0 {
          assert t[i - 1] + size(t[i - 1]) == t[j - 1];
        }
      }
    }
    if Chain(size, s, pc) {
      forall i, j | 0 <= i && j == i + 1 < |t| ensures t[i] + size(t[i]) == t[j] {
        assert s[i + 1] + size(s[i + 1]) == s[j + 1];
      }
    }
  }

  lemma {:induction false} ChainAscends(size: Sizes, s: seq<Word>, pc: Word, k: nat)
    requires Chain(size, s, pc) && k < |s|
    ensures s[k] < pc && (k > 0 ==> s[0] < s[k])
    decreases |s|
  {
    if |s| > 1 {
      ChainTail(size, s, pc);
      ChainAscends(size, s[1..], pc, if k > 0 then k - 1 else 0);
    }
  }

  /** What is cut off at the front leaves a chain. */
  lemma {:induction false} LastIsChain(size: Sizes, s: seq<Word>, pc: Word, n: nat)
    requires Chain(size, s, pc) && n > 0
    ensures Chain(size, LastOf(s, n), pc)
    decreases |s|
  {
    if |s| > n {
      ChainTail(size, s, pc);
      LastIsChain(size, s[1..], pc, n);
      assert LastOf(s, n) == s[|s| - n..] == s[1..][|s| - 1 - n..];
    }
  }

  // ---------- the search ----------

  /** One attempt: decode forward from `start`. */
  method Try(size: Sizes, start: Word, pc: Word) returns (r: Option<seq<Word>>)
    requires start < pc
    ensures r == Walk(size, start, pc)
  {
    var cur: Word := start;
    var s: seq<Word> := [];
    assert forall t: seq<Word> :: s + t == t;
    while cur < pc
      invariant cur <= pc
      invariant Walk(size, start, pc)
                == match Walk(size, cur, pc) case None => None case Some(t) => Some(s + t)
      decreases pc - cur
    {
      var next := cur + size(cur);
      assert forall t: seq<Word> :: s + ([cur] + t) == (s + [cur]) + t;
      s := s + [cur];
      if next > pc {
        return None;
      }
      cur := next;
    }
    assert s + [] == s;
    r := Some(s);
  }

  /** The last n instructions of the best chain within the look-back window. */
  method WalkBackAt(size: Sizes, pc: Word, n: int) returns (r: seq<Word>)
    ensures n <= 0 || pc == 0 ==> r == []
    ensures n > 0 && pc > 0 ==> exists best :: Best(size, best, pc, 0) && r == LastOf(best, n)
    ensures r != [] ==> Chain(size, r, pc) && |r| <= n
  {
    if n <= 0 || pc == 0 {
      return [];
    }
    var best: seq<Word> := [];
    var back := 1;
    while back <= MAX_LOOK && pc - back >= 0
      invariant 1 <= back <= MAX_LOOK + 1 && pc - back >= -1
      invariant Best(size, best, pc, pc - back + 1)
    {
      var start: Word := pc - back;
      var found := Try(size, start, pc);
      Improve(size, best, pc, start);
      if found.Some? && Beats(found.value, best) {
        best := found.value;
      }
      back := back + 1;
    }
    assert Best(size, best, pc, 0);
    r := LastOf(best, n);
    if best != [] {
      LastIsChain(size, best, pc, n);
    }
  }

  /** Considering one more start keeps the winner right. */
  lemma Improve(size: Sizes, best: seq<Word>, pc: Word, start: Word)
    requires pc - MAX_LOOK <= start < pc && Best(size, best, pc, start + 1)
    ensures var found := Walk(size, start, pc);
            Best(size, if found.Some? && Beats(found.value, best) then found.value else best, pc, start)
  {
    var found := Walk(size, start, pc);
    forall t: seq<Word> | Chain(size, t, pc) && t[0] == start ensures found == Some(t) {
      WalkFindsChain(size, t, start, pc);
    }
    if found.Some? {
      WalkFindsChain(size, found.value, start, pc);
    }
  }

  /** The winner has at least as many instructions as any other chain that starts within 64 bytes, and
      starts no later than any other of its length. */
  lemma BestIsLongest(size: Sizes, best: seq<Word>, pc: Word, t: seq<Word>)
    requires Best(size, best, pc, 0) && Chain(size, t, pc) && pc - 64 <= t[0] < pc
    ensures |t| <= |best| && (|t| == |best| ==> best[0] <= t[0]) && pc - 64 <= best[0]
  {
  }

  /** Memory as the NMOS table decodes it. */
  function CodeSizes(ram: seq<Byte>): Sizes
    requires |ram| == 0x1_0000
  {
    EverySlotHasLength(ram);
    (a: Word) requires a < |ram| => Opcodes.Table(ram[a]).bytes
  }

  lemma EverySlotHasLength(ram: seq<Byte>)
    requires |ram| == 0x1_0000
    ensures forall a: Word :: Opcodes.Table(ram[a]).bytes >= 1
  {
    forall a: Word ensures Opcodes.Table(ram[a]).bytes >= 1 {
      Opcodes.TableIsShaped(ram[a]);
    }
  }

  /** The same over memory as the NMOS table decodes it. */
  method WalkBack(ram: seq<Byte>, pc: Word, n: int) returns (r: seq<Word>)
    requires |ram| == 0x1_0000
    ensures n <= 0 || pc == 0 ==> r == []
    ensures n > 0 && pc > 0 ==> exists best :: Best(CodeSizes(ram), best, pc, 0) && r == LastOf(best, n)
    ensures r != [] ==> Chain(CodeSizes(ram), r, pc) && |r| <= n
  {
    r := WalkBackAt(CodeSizes(ram), pc, n);
  }
}
