/** Length-framed messages of the Debug Adapter Protocol; a byte is a character below 256. */
module Frame {
  import opened Basics
  import opened Text

  const MAX_INT := 0x7FFF_FFFF_FFFF_FFFF

  datatype Error = Truncated | BadLength | NoLength

  // ---------- lines and numbers ----------

  function TrimReturns(line: string): string {
    if line != [] && (line[|line| - 1] == '\r' || line[|line| - 1] == '\n')
    then TrimReturns(line[..|line| - 1]) else line
  }

  function Lower(c: char): char {
    if 'A' <= c <= 'Z' then (c as int + 32) as char else c
  }

  const KEY := "content-length:"

  predicate NamesLength(line: string) {
    |line| >= |KEY| && forall i | 0 <= i < |KEY| :: Lower(line[i]) == KEY[i]
  }

  /** A decimal number with an optional sign that fits a signed 64-bit integer. */
  function ParseInt(s: string): Option<int> {
    var signed := s != [] && (s[0] == '-' || s[0] == '+');
    var digits := if signed then s[1..] else s;
    if digits == [] || !AllDigits(digits) then None
    else
      var n: int := DecimalValue(digits);
      if s[0] == '-' then (if n <= MAX_INT + 1 then Some(-n) else None)
      else if n <= MAX_INT then Some(n) else None
  }

  // ---------- reading and writing ----------

  /** Header lines up to the blank one; the last length wins, other headers are skipped. */
  function ReadHeaders(s: string, length: int): (r: Result<(int, string), Error>)
    ensures r.Ok? ==> |r.value.1| < |s|
    decreases |s|
  {
    match NextLine(s)
    case None => Err(Truncated)
    case Some((raw, rest)) =>
      var line := TrimReturns(raw);
      if line == [] then Ok((length, rest))
      else if !NamesLength(line) then ReadHeaders(rest, length)
      else match ParseInt(TrimRight(TrimLeft(line[|KEY|..])))
        case None => Err(BadLength)
        case Some(n) => ReadHeaders(rest, n)
  }

  /** One message and the rest of the stream. */
  function Read(s: string): (r: Result<(string, string), Error>)
    ensures r.Ok? ==> r.value.0 != [] && |r.value.1| < |s|
  {
    match ReadHeaders(s, 0)
    case Err(e) => Err(e)
    case Ok((length, rest)) =>
      if length <= 0 then Err(NoLength)
      else if length > |rest| then Err(Truncated)
      else Ok((rest[..length], rest[length..]))
  }

  function Write(body: string): string {
    "Content-Length: " + Decimal(|body|) + "\r\n\r\n" + body
  }

  // ---------- the reader as it runs ----------

  /** A buffered stream and how far it has been consumed. */
  class Stream {
    const data: string
    var pos: nat

    predicate Valid()
      reads this
    {
      pos <= |data|
    }

    function Rest(): string
      requires Valid()
      reads this
    {
      data[pos..]
    }

    constructor (s: string)
      ensures Valid() && Rest() == s
    {
      data, pos := s, 0;
    }

    /** Everything up to and including the next newline; at the end of input the tail is consumed. */
    method ReadLine() returns (line: Option<string>)
      requires Valid()
      modifies this
      ensures Valid() && old(pos) <= pos
      ensures match NextLine(old(Rest()))
              case None => line == None
              case Some((raw, rest)) => line == Some(raw) && Rest() == rest && pos > old(pos)
    {
      var start := pos;
      while pos < |data| && data[pos] != '\n'
        invariant start <= pos <= |data| && '\n' !in data[start..pos]
      {
        pos := pos + 1;
      }
      if pos == |data| {
        NoLine(data[start..]);
        return None;
      }
      line := Some(data[start..pos]);
      NextLineOf(data[start..pos], data[pos + 1..]);
      assert data[start..] == data[start..pos] + "\n" + data[pos + 1..];
      pos := pos + 1;
    }

    method ReadMessage() returns (r: Result<string, Error>)
      requires Valid()
      modifies this
      ensures Valid()
      ensures match Read(old(Rest()))
              case Ok((body, rest)) => r == Ok(body) && Rest() == rest
              case Err(e) => r == Err(e)
    {
      var contentLength := 0;
      var more := true;
      while more
        invariant Valid() && pos >= old(pos)
        invariant more ==> ReadHeaders(old(Rest()), 0) == ReadHeaders(Rest(), contentLength)
        invariant !more ==> ReadHeaders(old(Rest()), 0) == Ok((contentLength, Rest()))
        decreases more, |data| - pos
      {
        var raw := ReadLine();
        if raw == None {
          return Err(Truncated);
        }
        var line := TrimReturns(raw.value);
        if line == [] {
          more := false;
        } else if NamesLength(line) {
          var n := ParseInt(TrimRight(TrimLeft(line[|KEY|..])));
          if n == None {
            return Err(BadLength);
          }
          contentLength := n.value;
        }
      }
      if contentLength <= 0 {
        return Err(NoLength);
      }
      if contentLength > |data| - pos {
        return Err(Truncated);
      }
      assert Rest()[..contentLength] == data[pos..pos + contentLength];
      assert Rest()[contentLength..] == data[pos + contentLength..];
      r := Ok(data[pos..pos + contentLength]);
      pos := pos + contentLength;
    }
  }

  // ---------- round trips ----------

  /** A framed message reads back as itself and leaves what follows untouched, exactly when its body
      is not empty, whatever bytes the body holds. */
  lemma FramedReadsBack(body: string, rest: string)
    requires |body| <= MAX_INT
    ensures Read(Write(body) + rest) == if body == [] then Err(NoLength) else Ok((body, rest))
  {
    var digits := Decimal(|body|);
    DecimalRoundTrip(|body|);
    var header := "Content-Length: " + digits;
    var s := Write(body) + rest;
    assert s == header + "\r" + "\n" + ("\r" + "\n" + (body + rest));
    HeaderLine(digits);
    NextLineOf(header + "\r", "\r" + "\n" + (body + rest));
    NextLineOf("\r", body + rest);
    assert TrimReturns("\r") == [] by {
      assert "\r"[..0] == [];
    }
    assert ReadHeaders("\r" + "\n" + (body + rest), |body|) == Ok((|body|, body + rest));
    assert ReadHeaders(s, 0) == Ok((|body|, body + rest));
    assert (body + rest)[..|body|] == body && (body + rest)[|body|..] == rest;
  }

  lemma HeaderLine(digits: string)
    requires digits != [] && AllDigits(digits) && DecimalValue(digits) <= MAX_INT
    ensures var line := "Content-Length: " + digits;
            && '\n' !in line + "\r" && TrimReturns(line + "\r") == line && NamesLength(line)
            && ParseInt(TrimRight(TrimLeft(line[|KEY|..]))) == Some(DecimalValue(digits))
  {
    var line := "Content-Length: " + digits;
    TrimOneReturn(line);
    var value := " " + digits;
    assert line == "Content-Length:" + value;
    assert NamesLength(line) && line[|KEY|..] == value by {
      NamesTheLength(value);
    }
    assert ParseInt(TrimRight(TrimLeft(value))) == Some(DecimalValue(digits)) by {
      LengthValue(digits);
    }
  }

  lemma TrimOneReturn(line: string)
    requires line != [] && line[|line| - 1] != '\r' && line[|line| - 1] != '\n'
    ensures TrimReturns(line + "\r") == line
  {
    assert (line + "\r")[..|line|] == line;
  }

  lemma NamesTheLength(value: string)
    ensures var line := "Content-Length:" + value; NamesLength(line) && line[|KEY|..] == value
  {
  }

  lemma LengthValue(digits: string)
    requires digits != [] && AllDigits(digits) && DecimalValue(digits) <= MAX_INT
    ensures ParseInt(TrimRight(TrimLeft(" " + digits))) == Some(DecimalValue(digits))
  {
    assert (" " + digits)[1..] == digits;
    assert IsDigit(digits[0]) && IsDigit(digits[|digits| - 1]);
  }

  function WriteAll(bodies: seq<string>): string {
    if bodies == [] then [] else Write(bodies[0]) + WriteAll(bodies[1..])
  }

  /** Messages until the first failure; a clean end of input stops with nothing left over. */
  function ReadAll(s: string): (seq<string>, Option<Error>)
    decreases |s|
  {
    if s == [] then ([], None)
    else match Read(s)
      case Err(e) => ([], Some(e))
      case Ok((body, rest)) => var (bodies, end) := ReadAll(rest); ([body] + bodies, end)
  }

  /** Any concatenation of framed non-empty bodies reads back as those bodies in order. */
  lemma {:induction false} StreamReadsBack(bodies: seq<string>)
    requires forall k | 0 <= k < |bodies| :: bodies[k] != [] && |bodies[k]| <= MAX_INT
    ensures ReadAll(WriteAll(bodies)) == (bodies, None)
    decreases |bodies|
  {
    if bodies != [] {
      var head, tail := bodies[0], bodies[1..];
      var s := WriteAll(tail);
      StreamReadsBack(tail);
      ReadOneMore(head, s);
      assert bodies == [head] + tail;
    }
  }

  lemma ReadOneMore(body: string, s: string)
    requires body != [] && |body| <= MAX_INT
    ensures ReadAll(Write(body) + s) == ([body] + ReadAll(s).0, ReadAll(s).1)
  {
    FramedReadsBack(body, s);
    assert |Write(body) + s| > 0;
  }

  /** Other headers in front of the length make no difference. */
  lemma OtherHeadersIgnored(raw: string, s: string, length: int)
    requires '\n' !in raw && TrimReturns(raw) != [] && !NamesLength(TrimReturns(raw))
    ensures ReadHeaders(raw + "\n" + s, length) == ReadHeaders(s, length)
    ensures Read(raw + "\n" + s) == Read(s)
  {
    NextLineOf(raw, s);
  }
}
