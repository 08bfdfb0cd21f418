/** Numbers as text: decimal and fixed-width hexadecimal, both ways. */
module Text {
  import opened Basics

  predicate IsDigit(c: char) {
    '0' <= c <= '9'
  }

  predicate IsHexDigit(c: char) {
    IsDigit(c) || 'a' <= c <= 'f' || 'A' <= c <= 'F'
  }

  function HexValue(c: char): (v: nat)
    requires IsHexDigit(c)
    ensures v < 16
  {
    if IsDigit(c) then c as int - '0' as int
    else if 'a' <= c <= 'f' then c as int - 'a' as int + 10
    else c as int - 'A' as int + 10
  }

  function DigitOf(d: nat): (c: char)
    requires d < 10
    ensures IsDigit(c) && HexValue(c) == d
  {
    ('0' as int + d) as char
  }

  function HexDigitOf(d: nat): (c: char)
    requires d < 16
    ensures IsHexDigit(c) && HexValue(c) == d
  {
    if d < 10 then DigitOf(d) else ('A' as int + d - 10) as char
  }

  function Decimal(n: nat): string {
    if n < 10 then [DigitOf(n)] else Decimal(n / 10) + [DigitOf(n % 10)]
  }

  predicate AllDigits(s: string) {
    forall i | 0 <= i < |s| :: IsDigit(s[i])
  }

  predicate AllHex(s: string) {
    forall i | 0 <= i < |s| :: IsHexDigit(s[i])
  }

  function DecimalValue(s: string): nat
    requires AllDigits(s)
  {
    if s == [] then 0 else 10 * DecimalValue(s[..|s| - 1]) + HexValue(s[|s| - 1])
  }

  function HexNumber(s: string): nat
    requires AllHex(s)
  {
    if s == [] then 0 else 16 * HexNumber(s[..|s| - 1]) + HexValue(s[|s| - 1])
  }

  lemma {:induction false} DecimalRoundTrip(n: nat)
    ensures AllDigits(Decimal(n)) && Decimal(n) != [] && DecimalValue(Decimal(n)) == n
    decreases n
  {
    if n < 10 {
      assert Decimal(n)[..0] == [];
    } else {
      DecimalRoundTrip(n / 10);
      assert Decimal(n)[..|Decimal(n)| - 1] == Decimal(n / 10);
    }
  }

  /** The longest prefix of digits. */
  function DigitRun(s: string): (n: nat)
    ensures n <= |s| && AllDigits(s[..n]) && (n < |s| ==> !IsDigit(s[n]))
  {
    if s == [] || !IsDigit(s[0]) then 0
    else
      var n := DigitRun(s[1..]);
      assert s[..n + 1] == [s[0]] + s[1..][..n];
      n + 1
  }

  lemma {:induction false} DigitRunOf(digits: string, rest: string)
    requires AllDigits(digits) && (rest == [] || !IsDigit(rest[0]))
    ensures DigitRun(digits + rest) == |digits|
    decreases |digits|
  {
    if digits == [] {
      assert digits + rest == rest;
    } else {
      assert (digits + rest)[1..] == digits[1..] + rest;
      DigitRunOf(digits[1..], rest);
    }
  }

  // ---------- lines and words ----------

  /** The first line without its newline, and what follows it. */
  function NextLine(s: string): (r: Option<(string, string)>)
    ensures r.Some? ==> s == r.value.0 + "\n" + r.value.1 && '\n' !in r.value.0
    ensures r.None? ==> '\n' !in s
  {
    if s == [] then None
    else if s[0] == '\n' then
      assert s == [] + "\n" + s[1..];
      Some(([], s[1..]))
    else match NextLine(s[1..])
      case None => None
      case Some((line, rest)) =>
        assert s == [s[0]] + s[1..];
        Some(([s[0]] + line, rest))
  }

  lemma {:induction false} NextLineOf(line: string, rest: string)
    requires '\n' !in line
    ensures NextLine(line + "\n" + rest) == Some((line, rest))
    decreases |line|
  {
    var s := line + "\n" + rest;
    if line == [] {
      assert s[1..] == rest;
    } else {
      NextLineOf(line[1..], rest);
      assert s[1..] == line[1..] + "\n" + rest;
      assert line == [line[0]] + line[1..];
    }
  }

  lemma NoLine(s: string)
    requires '\n' !in s
    ensures NextLine(s) == None
  {
  }

  predicate IsSpace(c: char) {
    c == ' ' || '\t' <= c <= '\r'
  }

  function TrimLeft(s: string): string {
    if s != [] && IsSpace(s[0]) then TrimLeft(s[1..]) else s
  }

  function TrimRight(s: string): string {
    if s != [] && IsSpace(s[|s| - 1]) then TrimRight(s[..|s| - 1]) else s
  }

  function Trim(s: string): string {
    TrimRight(TrimLeft(s))
  }

  predicate IsWord(s: string) {
    s != [] && forall i | 0 <= i < |s| :: !IsSpace(s[i])
  }

  predicate IsGap(s: string) {
    s != [] && forall i | 0 <= i < |s| :: IsSpace(s[i])
  }

  /** The length of the leading word. */
  function WordRun(s: string): (n: nat)
    ensures n <= |s| && (forall i | 0 <= i < n :: !IsSpace(s[i])) && (n < |s| ==> IsSpace(s[n]))
  {
    if s == [] || IsSpace(s[0]) then 0 else 1 + WordRun(s[1..])
  }

  /** The words of a line. */
  function Fields(s: string): seq<string>
    decreases |s|
  {
    if s == [] then []
    else if IsSpace(s[0]) then Fields(s[1..])
    else [s[..WordRun(s)]] + Fields(s[WordRun(s)..])
  }

  lemma {:induction false} FieldsAfterGap(gap: string, s: string)
    requires forall i | 0 <= i < |gap| :: IsSpace(gap[i])
    ensures Fields(gap + s) == Fields(s)
    decreases |gap|
  {
    if gap == [] {
      assert gap + s == s;
    } else {
      assert (gap + s)[1..] == gap[1..] + s;
      FieldsAfterGap(gap[1..], s);
    }
  }

  lemma {:induction false} WordRunOf(word: string, s: string)
    requires forall i | 0 <= i < |word| :: !IsSpace(word[i])
    requires s == [] || IsSpace(s[0])
    ensures WordRun(word + s) == |word|
    decreases |word|
  {
    if word == [] {
      assert word + s == s;
    } else {
      assert (word + s)[1..] == word[1..] + s;
      WordRunOf(word[1..], s);
    }
  }

  /** A word followed by white space is the first field. */
  lemma FieldsOfWord(word: string, gap: string, s: string)
    requires IsWord(word) && IsGap(gap)
    ensures Fields(word + gap + s) == [word] + Fields(s)
  {
    var t := word + gap + s;
    assert t == word + (gap + s);
    WordRunOf(word, gap + s);
    assert t[..|word|] == word && t[|word|..] == gap + s;
    FieldsAfterGap(gap, s);
  }

  lemma FieldsOfLastWord(word: string)
    requires IsWord(word)
    ensures Fields(word) == [word]
  {
    WordRunOf(word, []);
    assert word + [] == word && word[..|word|] == word && word[|word|..] == [];
  }
}
