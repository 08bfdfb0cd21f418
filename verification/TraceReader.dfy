/** The trace parser as it runs, and the cursor over a parsed trace. */
module TraceReader {
  import opened Basics
  import opened Text
  import opened Trace

  /** Opcode bytes are taken from the second field on while the fields look like bytes. */
  method ReadBytes(fields: seq<string>) returns (bytes: seq<Byte>)
    requires fields != []
    ensures bytes == TakeBytes(fields[1..]) && |bytes| < |fields|
  {
    bytes := [];
    var i := 1;
    while i < |fields| && IsHexByte(fields[i])
      invariant i == 1 + |bytes| <= |fields|
      invariant bytes + TakeBytes(fields[i..]) == TakeBytes(fields[1..])
    {
      assert fields[i..][1..] == fields[i + 1..];
      bytes := bytes + [HexByte(fields[i])];
      i := i + 1;
    }
    assert TakeBytes(fields[i..]) == [];
  }

  method FindTags(fields: seq<string>, start: nat) returns (i: nat)
    requires start <= |fields|
    ensures i == start + UntilA(fields[start..])
  {
    i := start;
    while i < |fields| && !IsATag(fields[i])
      invariant start <= i <= |fields|
      invariant i + UntilA(fields[i..]) == start + UntilA(fields[start..])
    {
      assert fields[i..][1..] == fields[i + 1..];
      i := i + 1;
    }
    assert UntilA(fields[i..]) == 0;
  }

  method ReadTags(blank: Frame, fields: seq<string>, start: nat) returns (f: Frame)
    requires start <= |fields|
    ensures f == ApplyTags(blank, fields[start..])
  {
    f := blank;
    var i := start;
    while i < |fields|
      invariant start <= i <= |fields|
      invariant ApplyTags(f, fields[i..]) == ApplyTags(blank, fields[start..])
    {
      assert fields[i..][1..] == fields[i + 1..];
      f := ApplyTag(f, fields[i]);
      i := i + 1;
    }
  }

  method ParseLine(line: string) returns (r: Result<Frame, Error>)
    ensures r == ParseFields(Fields(line))
  {
    var fields := Fields(line);
    if |fields| < 5 {
      return Err(TooFewFields);
    }
    var pc := ParsePc(fields[0]);
    if pc == None {
      return Err(BadPc);
    }
    var bytes := ReadBytes(fields);
    var start := 1 + |bytes|;
    if start >= |fields| {
      return Err(NoMnemonic);
    }
    var i := FindTags(fields, start);
    assert fields[start..][..i - start] == fields[start..i] && fields[start..][i - start..] == fields[i..];
    var f := ReadTags(Frame(pc.value, bytes, Joined(fields[start..i]), 0, 0, 0, 0, 0, 0, []), fields, i);
    r := Ok(f);
  }

  /** What has been read so far in front of what the rest gives. */
  function Before(frames: seq<Frame>, rest: Result<seq<Frame>, Error>): Result<seq<Frame>, Error> {
    match rest
    case Err(e) => Err(e)
    case Ok(more) => Ok(frames + more)
  }

  method ParseTrace(text: string) returns (r: Result<seq<Frame>, Error>)
    ensures r == Parse(text, [])
  {
    var frames: seq<Frame> := [];
    var pending: string := [];
    var rest := text;
    assert forall more: seq<Frame> :: frames + more == more;
    while rest != []
      invariant Parse(text, []) == Before(frames, Parse(rest, pending))
      decreases |rest|
    {
      var raw, after := rest, [];
      match NextLine(rest) {
        case None =>
        case Some(split) => raw, after := split.0, split.1;
      }
      var line := Trim(raw);
      if line == [] {
        rest := after;
      } else if IsMarker(line) {
        pending := MarkerKind(line);
        rest := after;
      } else {
        var f := ParseLine(line);
        if f.Err? {
          return Err(f.error);
        }
        var tagged := f.value.(interrupt := pending);
        assert forall more: seq<Frame> :: frames + ([tagged] + more) == (frames + [tagged]) + more;
        frames := frames + [tagged];
        pending := [];
        rest := after;
      }
    }
    assert frames + [] == frames;
    r := Ok(frames);
  }

  /** A parsed trace and a cursor. */
  class Replay {
    const frames: seq<Frame>
    var index: nat

    predicate Valid()
      reads this
    {
      frames != [] ==> index < |frames|
    }

    predicate Ascending() {
      forall i, j | 0 <= i < j < |frames| :: frames[i].cycles <= frames[j].cycles
    }

    constructor (parsed: seq<Frame>)
      ensures Valid() && frames == parsed && index == 0
    {
      frames, index := parsed, 0;
    }

    /** Move by n frames, stopping at either end. */
    method Step(n: int) returns (moved: bool)
      requires Valid()
      modifies this
      ensures Valid() && moved == (index != old(index))
      ensures frames != [] ==>
              index == if old(index) + n < 0 then 0
                       else if old(index) + n >= |frames| then |frames| - 1 else old(index) + n
    {
      if |frames| == 0 {
        return false;
      }
      var prev := index;
      var next := index + n;
      if next < 0 {
        next := 0;
      }
      if next >= |frames| {
        next := |frames| - 1;
      }
      index := next;
      moved := index != prev;
    }

    /** The first frame at or past a cycle count, by bisection; past the end the cursor rests on the
        last frame and the answer is no. */
    method SeekCycle(target: nat) returns (found: bool)
      requires Valid() && Ascending()
      modifies this
      ensures Valid()
      ensures found <==> exists k | 0 <= k < |frames| :: frames[k].cycles >= target
      ensures found ==> frames[index].cycles >= target && forall k | 0 <= k < index :: frames[k].cycles < target
      ensures !found && frames != [] ==> index == |frames| - 1
    {
      if |frames| == 0 {
        return false;
      }
      var lo, hi := 0, |frames|;
      while lo < hi
        invariant 0 <= lo <= hi <= |frames|
        invariant forall k | 0 <= k < lo :: frames[k].cycles < target
        invariant forall k | hi <= k < |frames| :: frames[k].cycles >= target
      {
        var mid := (lo + hi) / 2;
        if frames[mid].cycles < target {
          lo := mid + 1;
        } else {
          hi := mid;
        }
      }
      if lo >= |frames| {
        index := |frames| - 1;
        return false;
      }
      assert frames[lo].cycles >= target;
      index := lo;
      found := true;
    }
  }
}
