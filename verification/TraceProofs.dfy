/** A written trace parses back to what was logged. */
module TraceProofs {
  import opened Basics
  import opened Opcodes
  import opened Text
  import opened Trace
  import NesCore

  // ---------- the words of a line ----------

  /** A line that splits into the given words, with no newline and no white space at its end. */
  ghost predicate Reads(s: string, fields: seq<string>) {
    Fields(s) == fields && '\n' !in s && s != [] && !IsSpace(s[|s| - 1])
  }

  predicate Blank(gap: string) {
    gap != [] && forall i | 0 <= i < |gap| :: gap[i] == ' '
  }

  lemma ReadsMore(word: string, gap: string, s: string, fields: seq<string>)
    requires IsWord(word) && Blank(gap) && Reads(s, fields)
    ensures Reads(word + gap + s, [word] + fields)
  {
    FieldsOfWord(word, gap, s);
  }

  lemma ReadsLast(word: string)
    requires IsWord(word)
    ensures Reads(word, [word])
  {
    FieldsOfLastWord(word);
  }

  lemma {:induction false} SpacesAreBlank(n: int)
    ensures forall i | 0 <= i < |Spaces(n)| :: Spaces(n)[i] == ' '
    ensures |Spaces(n)| == if n <= 0 then 0 else n
    decreases n
  {
    if n > 0 {
      SpacesAreBlank(n - 1);
    }
  }

  // ---------- numbers ----------

  lemma Hex2Reads(b: Byte)
    ensures IsHexByte(Hex2(b)) && HexByte(Hex2(b)) == b && HexTag(Hex2(b)) == b && IsWord(Hex2(b))
  {
    var s := Hex2(b);
    assert s[..1] == [s[0]] && s[..1][..0] == [];
    assert HexNumber(s[..1]) == b / 0x10;
    assert IsHexDigit(s[0]) && IsHexDigit(s[1]);
  }

  lemma Hex4Reads(w: Word)
    ensures ParsePc(Hex4(w)) == Some(w) && IsWord(Hex4(w)) && Hex4(w)[0] != '-'
  {
    var hi, lo := w / 0x100, w % 0x100;
    Hex2Reads(hi);
    Hex2Reads(lo);
    HexAppend(Hex2(hi), HexDigitOf(lo / 0x10));
    HexAppend(Hex2(hi) + [HexDigitOf(lo / 0x10)], HexDigitOf(lo % 0x10));
    assert Hex4(w) == Hex2(hi) + [HexDigitOf(lo / 0x10)] + [HexDigitOf(lo % 0x10)];
    HexTagNumber(Hex2(hi), hi);
  }

  lemma HexAppend(s: string, c: char)
    requires AllHex(s) && IsHexDigit(c)
    ensures AllHex(s + [c]) && HexNumber(s + [c]) == 16 * HexNumber(s) + HexValue(c)
  {
    assert (s + [c])[..|s|] == s;
  }

  lemma HexTagNumber(s: string, b: Byte)
    requires IsHexByte(s) && HexByte(s) == b
    ensures HexNumber(s) == b
  {
    HexAppend([], s[0]);
    HexAppend([s[0]], s[1]);
    assert s == [s[0]] + [s[1]] && [] + [s[0]] == [s[0]];
  }

  // ---------- the register columns ----------

  function CyclesTags(m: Moment): seq<string> { ["CYC:" + Decimal(m.cycles)] }

  function PointerTags(m: Moment): seq<string> { ["SP:" + Hex2(m.sp)] + CyclesTags(m) }

  function StatusTags(m: Moment): seq<string> { ["P:" + Hex2(m.p)] + PointerTags(m) }

  function YTags(m: Moment): seq<string> { ["Y:" + Hex2(m.y)] + StatusTags(m) }

  function XTags(m: Moment): seq<string> { ["X:" + Hex2(m.x)] + YTags(m) }

  function ATags(m: Moment): seq<string> { ["A:" + Hex2(m.a)] + XTags(m) }

  lemma CyclesRead(m: Moment)
    ensures Reads(CyclesText(m), CyclesTags(m))
  {
    DecimalRoundTrip(m.cycles);
    ReadsLast("CYC:" + Decimal(m.cycles));
  }

  lemma PointerReads(m: Moment)
    ensures Reads(PointerText(m), PointerTags(m))
  {
    Hex2Reads(m.sp);
    CyclesRead(m);
    ReadsMore("SP:" + Hex2(m.sp), " ", CyclesText(m), CyclesTags(m));
  }

  lemma StatusReads(m: Moment)
    ensures Reads(StatusText(m), StatusTags(m))
  {
    Hex2Reads(m.p);
    PointerReads(m);
    ReadsMore("P:" + Hex2(m.p), " ", PointerText(m), PointerTags(m));
  }

  lemma YReads(m: Moment)
    ensures Reads(YText(m), YTags(m))
  {
    Hex2Reads(m.y);
    StatusReads(m);
    ReadsMore("Y:" + Hex2(m.y), " ", StatusText(m), StatusTags(m));
  }

  lemma XReads(m: Moment)
    ensures Reads(XText(m), XTags(m))
  {
    Hex2Reads(m.x);
    YReads(m);
    ReadsMore("X:" + Hex2(m.x), " ", YText(m), YTags(m));
  }

  lemma AReads(m: Moment)
    ensures Reads(AText(m), ATags(m))
  {
    Hex2Reads(m.a);
    XReads(m);
    ReadsMore("A:" + Hex2(m.a), " ", XText(m), XTags(m));
  }

  /** A tag splits at its colon. */
  lemma {:induction false} ColonSplits(key: string, val: string)
    requires forall i | 0 <= i < |key| :: key[i] != ':'
    ensures var s := key + ":" + val; ColonAt(s) == |key| && s[..|key|] == key && s[|key| + 1..] == val
    decreases |key|
  {
    var s := key + ":" + val;
    if key != [] {
      ColonSplits(key[1..], val);
      assert s[1..] == key[1..] + ":" + val;
    }
  }

  lemma ApplyMore(f: Frame, tag: string, tags: seq<string>)
    ensures ApplyTags(f, [tag] + tags) == ApplyTags(ApplyTag(f, tag), tags)
  {
    assert ([tag] + tags)[1..] == tags;
  }

  lemma CyclesApply(f: Frame, m: Moment)
    requires m.cycles <= MAX_CYCLES
    ensures ApplyTags(f, CyclesTags(m)) == f.(cycles := m.cycles)
  {
    DecimalRoundTrip(m.cycles);
    assert "CYC" + ":" == "CYC:";
    ColonSplits("CYC", Decimal(m.cycles));
    assert CyclesTags(m)[1..] == [];
  }

  lemma PointerApply(f: Frame, m: Moment)
    requires m.cycles <= MAX_CYCLES
    ensures ApplyTags(f, PointerTags(m)) == f.(sp := m.sp, cycles := m.cycles)
  {
    Hex2Reads(m.sp);
    assert "SP" + ":" == "SP:";
    ColonSplits("SP", Hex2(m.sp));
    ApplyMore(f, "SP:" + Hex2(m.sp), CyclesTags(m));
    CyclesApply(f.(sp := m.sp), m);
  }

  lemma StatusApply(f: Frame, m: Moment)
    requires m.cycles <= MAX_CYCLES
    ensures ApplyTags(f, StatusTags(m)) == f.(p := m.p, sp := m.sp, cycles := m.cycles)
  {
    Hex2Reads(m.p);
    assert "P" + ":" == "P:";
    ColonSplits("P", Hex2(m.p));
    ApplyMore(f, "P:" + Hex2(m.p), PointerTags(m));
    PointerApply(f.(p := m.p), m);
  }

  lemma YApply(f: Frame, m: Moment)
    requires m.cycles <= MAX_CYCLES
    ensures ApplyTags(f, YTags(m)) == f.(y := m.y, p := m.p, sp := m.sp, cycles := m.cycles)
  {
    Hex2Reads(m.y);
    assert "Y" + ":" == "Y:";
    ColonSplits("Y", Hex2(m.y));
    ApplyMore(f, "Y:" + Hex2(m.y), StatusTags(m));
    StatusApply(f.(y := m.y), m);
  }

  lemma XApply(f: Frame, m: Moment)
    requires m.cycles <= MAX_CYCLES
    ensures ApplyTags(f, XTags(m)) == f.(x := m.x, y := m.y, p := m.p, sp := m.sp, cycles := m.cycles)
  {
    Hex2Reads(m.x);
    assert "X" + ":" == "X:";
    ColonSplits("X", Hex2(m.x));
    ApplyMore(f, "X:" + Hex2(m.x), YTags(m));
    YApply(f.(x := m.x), m);
  }

  lemma AApply(f: Frame, m: Moment)
    requires m.cycles <= MAX_CYCLES
    ensures ApplyTags(f, ATags(m)) == f.(a := m.a, x := m.x, y := m.y, p := m.p, sp := m.sp, cycles := m.cycles)
  {
    Hex2Reads(m.a);
    assert "A" + ":" == "A:";
    ColonSplits("A", Hex2(m.a));
    ApplyMore(f, "A:" + Hex2(m.a), XTags(m));
    XApply(f.(a := m.a), m);
  }

  // ---------- the instruction columns ----------

  /** Words the parser tells apart: a mnemonic is neither a hex byte nor a register tag, and an
      operand, where there is one, is a single word that is no register tag. */
  ghost predicate Plain(c: Code) {
    && 1 <= |c.bytes| <= 3
    && IsWord(c.name) && !IsATag(c.name) && !IsHexByte(c.name)
    && (c.operand != [] ==> IsWord(c.operand) && !IsATag(c.operand))
  }

  predicate Solid(s: string) {
    forall i | 0 <= i < |s| :: !IsSpace(s[i])
  }

  /** Text around something solid stays solid and starts with its own first character. */
  lemma Around(before: string, core: string, after: string)
    requires before != [] && Solid(before) && Solid(core) && Solid(after)
    ensures Solid(before + core + after) && (before + core + after)[0] == before[0]
  {
  }

  lemma OperandIsWord(mode: Mode, byte: string, word: string, target: string)
    requires Solid(byte) && Solid(word) && Solid(target)
    requires byte != [] && byte[0] == '$' && word != [] && word[0] == '$' && target != [] && target[0] == '$'
    ensures var o := Operand(mode, byte, word, target); o != [] ==> Solid(o) && (o == "A" || o[0] != 'A')
  {
    match mode
    case IMP =>
    case ACC =>
    case IMM => Beside("#", byte);
    case ZP =>
    case ZPX => Beside(byte, ",X");
    case ZPY => Beside(byte, ",Y");
    case REL =>
    case ABS =>
    case JSRABS =>
    case ABX => Beside(word, ",X");
    case ABY => Beside(word, ",Y");
    case IND => Around("(", word, ")");
    case IZX => Around("(", byte, ",X)");
    case IZY => Around("(", byte, "),Y");
  }

  lemma Beside(s: string, t: string)
    requires s != [] && Solid(s) && Solid(t)
    ensures Solid(s + t) && (s + t)[0] == s[0]
  {
  }

  lemma FormIsWord(form: Form, byte: string, word: string, target: string, bitTarget: string)
    requires Solid(byte) && Solid(word) && Solid(target) && Solid(bitTarget)
    requires byte != [] && byte[0] == '$' && word != [] && word[0] == '$' && target != [] && target[0] == '$'
    ensures var o := FormText(form, byte, word, target, bitTarget); o != [] ==> Solid(o) && (o == "A" || o[0] != 'A')
  {
    match form
    case Of(mode) => OperandIsWord(mode, byte, word, target);
    case ZeroPageIndirect => Around("(", byte, ")");
    case IndexedIndirect => Around("(", word, ",X)");
    case BitBranch => Around(byte, ",", bitTarget);
  }

  /** Operand syntax by mode: immediates start with `#` and indirect modes with a bracket, zero page
      and absolute ones with the number itself, and what comes last names the index. */
  lemma OperandSyntax(mode: Mode, byte: string, word: string, target: string)
    requires byte != [] && byte[0] == '$' && word != [] && word[0] == '$' && target != [] && target[0] == '$'
    ensures var o := Operand(mode, byte, word, target);
            && (o == [] <==> mode == IMP) && (mode == ACC ==> o == "A")
            && (mode == IMM ==> o[0] == '#' && o[1..] == byte)
            && (mode in {ZP, ZPX, ZPY} ==> |o| >= |byte| && o[..|byte|] == byte)
            && (mode in {ABS, JSRABS, ABX, ABY} ==> |o| >= |word| && o[..|word|] == word)
            && (mode in {IND, IZX, IZY} ==> o[0] == '(')
            && (mode in {ZPX, ABX} ==> o[|o| - 1] == 'X') && (mode in {ZPY, ABY, IZY} ==> o[|o| - 1] == 'Y')
            && (mode == IZX ==> o[|o| - 2] == 'X' && o[1..|o| - 3] == byte)
            && (mode == IZY ==> o[|o| - 3] == ')' && o[1..|o| - 3] == byte)
            && (mode == IND ==> o[1..|o| - 1] == word) && (mode == REL ==> o == target)
  {
  }

  /** The branch target printed is where the processor goes. */
  lemma TargetsAgree(pc: Word, displacement: Byte)
    ensures BranchTarget(pc, 2, displacement) == NesCore.Target(NesCore.Ahead(pc, 2), displacement)
  {
  }

  /** Any instruction of a table whose names are three capitals prints words the parser tells apart. */
  lemma DecodedIsPlain(slot: Slot, m: Moment)
    ensures Plain(Decoded(slot, m))
  {
    NameIsPlain(slot.name);
    FormIsPlain(slot.form, Hex2(m.b1), Hex4(WordOf(m.b1, m.b2)),
                Hex4(BranchTarget(m.pc, 2, m.b1)), Hex4(BranchTarget(m.pc, 3, m.b2)));
  }

  lemma NameIsPlain(name: Name)
    ensures IsWord(name) && !IsATag(name) && !IsHexByte(name)
  {
  }

  lemma FormIsPlain(form: Form, byte: string, word: string, target: string, bitTarget: string)
    requires AllHex(byte) && AllHex(word) && AllHex(target) && AllHex(bitTarget)
    ensures var o := FormText(form, "$" + byte, "$" + word, "$" + target, "$" + bitTarget);
            o != [] ==> IsWord(o) && !IsATag(o)
  {
    NumberIsSolid(byte);
    NumberIsSolid(word);
    NumberIsSolid(target);
    NumberIsSolid(bitTarget);
    FormIsWord(form, "$" + byte, "$" + word, "$" + target, "$" + bitTarget);
    NoTag(FormText(form, "$" + byte, "$" + word, "$" + target, "$" + bitTarget));
  }

  lemma NoTag(o: string)
    ensures o != [] && (o == "A" || o[0] != 'A') ==> !IsATag(o)
  {
    assert |o| >= 2 ==> o[..2][0] == o[0];
  }

  lemma NumberIsSolid(s: string)
    requires AllHex(s)
    ensures Solid("$" + s) && ("$" + s)[0] == '$'
  {
  }

  function Mnemonic(c: Code): string {
    if c.operand == [] then c.name else c.name + " " + c.operand
  }

  function MnemonicWords(c: Code): seq<string> {
    if c.operand == [] then [c.name] else [c.name, c.operand]
  }

  lemma Padding(n: int, tail: string)
    requires Blank(tail)
    ensures Blank(Spaces(n) + tail)
  {
    SpacesAreBlank(n);
  }

  lemma NameReads(name: string, pad: string, fill: string, rest: string, words: seq<string>)
    requires IsWord(name) && Blank(pad) && Blank(fill) && Reads(rest, words)
    ensures Reads(name + (pad + fill) + rest, [name] + words)
  {
    ReadsMore(name, pad + fill, rest, words);
  }

  lemma NameAndOperandRead(name: string, pad: string, operand: string, fill: string, rest: string, words: seq<string>)
    requires IsWord(name) && Blank(pad) && IsWord(operand) && Blank(fill) && Reads(rest, words)
    ensures Reads(name + pad + (operand + fill + rest), [name, operand] + words)
  {
    ReadsMore(operand, fill, rest, words);
    ReadsMore(name, pad, operand + fill + rest, [operand] + words);
    assert [name, operand] + words == [name] + ([operand] + words);
  }

  lemma GapsAreBlank(c: Code)
    ensures Blank(Pad(c)) && Blank(Fill(c))
  {
    Padding(4 - |c.name|, " ");
    Padding(13 - (|c.name| + |Pad(c)| + |c.operand|), "  ");
  }

  lemma MnemonicReads(c: Code, rest: string, words: seq<string>)
    requires Plain(c) && Reads(rest, words)
    ensures Reads(DisassemblyText(c, rest), MnemonicWords(c) + words)
  {
    GapsAreBlank(c);
    if c.operand == [] {
      NameReads(c.name, Pad(c), Fill(c), rest, words);
    } else {
      NameAndOperandRead(c.name, Pad(c), c.operand, Fill(c), rest, words);
    }
  }

  function HexWords(bytes: seq<Byte>): (words: seq<string>)
    ensures |words| == |bytes|
  {
    if bytes == [] then [] else [Hex2(bytes[0])] + HexWords(bytes[1..])
  }

  lemma ByteReads(b: Byte, gap: string, rest: string, words: seq<string>)
    requires Blank(gap) && Reads(rest, words)
    ensures Reads(Hex2(b) + gap + rest, [Hex2(b)] + words)
  {
    Hex2Reads(b);
    ReadsMore(Hex2(b), gap, rest, words);
  }

  lemma OneReads(bytes: seq<Byte>, rest: string, words: seq<string>)
    requires |bytes| == 1 && Reads(rest, words)
    ensures Reads(BytesText(bytes, rest), HexWords(bytes) + words)
  {
    var a := bytes[0];
    ByteReads(a, "        ", rest, words);
    OneWord(a, words);
    assert bytes == [a];
  }

  lemma TwoRead(bytes: seq<Byte>, rest: string, words: seq<string>)
    requires |bytes| == 2 && Reads(rest, words)
    ensures Reads(BytesText(bytes, rest), HexWords(bytes) + words)
  {
    var a, b := bytes[0], bytes[1];
    ByteReads(b, "     ", rest, words);
    ByteReads(a, " ", Hex2(b) + "     " + rest, [Hex2(b)] + words);
    TwoWords(a, b, words);
    assert bytes == [a, b];
  }

  lemma ThreeRead(bytes: seq<Byte>, rest: string, words: seq<string>)
    requires |bytes| == 3 && Reads(rest, words)
    ensures Reads(BytesText(bytes, rest), HexWords(bytes) + words)
  {
    var a, b, c := bytes[0], bytes[1], bytes[2];
    assert bytes == [a, b, c];
    ThreeWords(a, b, c, words);
    TripleReads(a, b, c, rest, words);
  }

  lemma TripleReads(a: Byte, b: Byte, c: Byte, rest: string, words: seq<string>)
    requires Reads(rest, words)
    ensures Reads(Hex2(a) + " " + (Hex2(b) + " " + (Hex2(c) + "  " + rest)),
                  [Hex2(a)] + ([Hex2(b)] + ([Hex2(c)] + words)))
  {
    PairReads(b, c, rest, words);
    ByteReads(a, " ", Hex2(b) + " " + (Hex2(c) + "  " + rest), [Hex2(b)] + ([Hex2(c)] + words));
  }

  lemma PairReads(b: Byte, c: Byte, rest: string, words: seq<string>)
    requires Reads(rest, words)
    ensures Reads(Hex2(b) + " " + (Hex2(c) + "  " + rest), [Hex2(b)] + ([Hex2(c)] + words))
  {
    ByteReads(c, "  ", rest, words);
    ByteReads(b, " ", Hex2(c) + "  " + rest, [Hex2(c)] + words);
  }

  lemma BytesRead(bytes: seq<Byte>, rest: string, words: seq<string>)
    requires 1 <= |bytes| <= 3 && Reads(rest, words)
    ensures Reads(BytesText(bytes, rest), HexWords(bytes) + words)
  {
    if |bytes| == 1 {
      OneReads(bytes, rest, words);
    } else if |bytes| == 2 {
      TwoRead(bytes, rest, words);
    } else {
      ThreeRead(bytes, rest, words);
    }
  }

  lemma OneWord(a: Byte, words: seq<string>)
    ensures HexWords([a]) + words == [Hex2(a)] + words
  {
    assert HexWords([a]) == [Hex2(a)] + HexWords([]);
  }

  lemma TwoWords(a: Byte, b: Byte, words: seq<string>)
    ensures HexWords([a, b]) + words == [Hex2(a)] + ([Hex2(b)] + words)
  {
    assert [a, b][1..] == [b];
    OneWord(b, words);
  }

  lemma ThreeWords(a: Byte, b: Byte, c: Byte, words: seq<string>)
    ensures HexWords([a, b, c]) + words == [Hex2(a)] + ([Hex2(b)] + ([Hex2(c)] + words))
  {
    assert [a, b, c][1..] == [b, c];
    TwoWords(b, c, words);
  }

  // ---------- one line ----------

  function FrameOf(c: Code, m: Moment): Frame {
    Frame(m.pc, c.bytes, Mnemonic(c), m.a, m.x, m.y, m.p, m.sp, m.cycles, [])
  }

  lemma {:induction false} TakesBytes(bytes: seq<Byte>, rest: seq<string>)
    requires rest != [] && !IsHexByte(rest[0])
    ensures TakeBytes(HexWords(bytes) + rest) == bytes
    decreases |bytes|
  {
    var fields := HexWords(bytes) + rest;
    if bytes == [] {
      assert fields == rest;
    } else {
      Hex2Reads(bytes[0]);
      assert fields[1..] == HexWords(bytes[1..]) + rest;
      TakesBytes(bytes[1..], rest);
    }
  }

  lemma MnemonicParses(c: Code, tags: seq<string>)
    requires Plain(c) && tags != [] && IsATag(tags[0])
    ensures var rest := MnemonicWords(c) + tags;
            UntilA(rest) == |MnemonicWords(c)| && Joined(rest[..UntilA(rest)]) == Mnemonic(c)
            && rest[UntilA(rest)..] == tags
  {
    var words, rest := MnemonicWords(c), MnemonicWords(c) + tags;
    assert rest[..|words|] == words && rest[|words|..] == tags;
    if c.operand == [] {
      assert rest[1..] == tags;
    } else {
      assert rest[1..] == [c.operand] + tags && ([c.operand] + tags)[1..] == tags;
      assert UntilA(tags) == 0 && UntilA([c.operand] + tags) == 1 && UntilA(rest) == 2;
      assert words[1..] == [c.operand];
    }
  }

  lemma LineReads(c: Code, m: Moment)
    requires Plain(c)
    ensures Reads(CodeLine(c, m), [Hex4(m.pc)] + (HexWords(c.bytes) + (MnemonicWords(c) + ATags(m))))
    ensures CodeLine(c, m)[0] == Hex4(m.pc)[0]
  {
    Hex4Reads(m.pc);
    AReads(m);
    MnemonicReads(c, AText(m), ATags(m));
    var rest := DisassemblyText(c, AText(m));
    BytesRead(c.bytes, rest, MnemonicWords(c) + ATags(m));
    ReadsMore(Hex4(m.pc), "  ", BytesText(c.bytes, rest), HexWords(c.bytes) + (MnemonicWords(c) + ATags(m)));
  }

  /** Parsing the words of a logged line gives the logged moment. */
  lemma StepParses(c: Code, m: Moment)
    requires Plain(c) && m.cycles <= MAX_CYCLES
    ensures ParseFields([Hex4(m.pc)] + (HexWords(c.bytes) + (MnemonicWords(c) + ATags(m)))) == Ok(FrameOf(c, m))
  {
    var rest := MnemonicWords(c) + ATags(m);
    var fields := [Hex4(m.pc)] + (HexWords(c.bytes) + rest);
    Hex4Reads(m.pc);
    TakesBytes(c.bytes, rest);
    MnemonicParses(c, ATags(m));
    AApply(Frame(m.pc, c.bytes, Mnemonic(c), 0, 0, 0, 0, 0, 0, []), m);
    assert fields[1..] == HexWords(c.bytes) + rest;
    assert fields[1 + |c.bytes|..] == rest;
  }

  lemma TrimNothing(s: string)
    requires s != [] && !IsSpace(s[0]) && !IsSpace(s[|s| - 1])
    ensures Trim(s) == s
  {
  }

  lemma StepLineParses(slot: Slot, m: Moment)
    requires m.cycles <= MAX_CYCLES
    ensures var line := StepLine(slot, m);
            && line != [] && '\n' !in line && Trim(line) == line && !IsMarker(line)
            && ParseFields(Fields(line)) == Ok(FrameOf(Decoded(slot, m), m))
  {
    var c := Decoded(slot, m);
    DecodedIsPlain(slot, m);
    CodeLineParses(c, m);
  }

  lemma CodeLineParses(c: Code, m: Moment)
    requires m.cycles <= MAX_CYCLES && Plain(c)
    ensures var line := CodeLine(c, m);
            && line != [] && '\n' !in line && Trim(line) == line && !IsMarker(line)
            && ParseFields(Fields(line)) == Ok(FrameOf(c, m))
  {
    LineReads(c, m);
    StepParses(c, m);
    Hex4Reads(m.pc);
    StartsWithHex(m.pc, CodeLine(c, m));
    TrimNothing(CodeLine(c, m));
  }

  lemma StartsWithHex(pc: Word, line: string)
    requires line != [] && line[0] == Hex4(pc)[0]
    ensures !IsMarker(line) && !IsSpace(line[0])
  {
    Hex4Reads(pc);
    assert |line| >= 4 ==> line[..4][0] == line[0] && "----"[0] == '-';
  }

  // ---------- markers ----------

  /** Interrupt kinds are single words without dashes. */
  predicate IsKind(kind: string) {
    IsWord(kind) && '-' !in kind
  }

  /** The end of a marker. */
  predicate Closes(s: string) {
    s != [] && s[|s| - 1] == ')' && '\n' !in s
  }

  lemma Longer(t: string, s: string)
    requires '\n' !in t && Closes(s)
    ensures Closes(t + s)
  {
    assert (t + s)[|t + s| - 1] == s[|s| - 1];
  }

  lemma MarkerTailShape(vector: Word, m: Moment)
    ensures var t := MarkerTail(vector, m);
            |t| > 5 && t[..4] == " -> " && t[|t| - 1] == ')' && '\n' !in t
  {
    var cycles := Decimal(m.cycles) + ")";
    var pointer := Hex2(m.sp) + (" CYC:" + cycles);
    var status := Hex2(m.p) + (" SP=" + pointer);
    DecimalRoundTrip(m.cycles);
    Hex2Reads(m.sp);
    Hex2Reads(m.p);
    Longer(Decimal(m.cycles), ")");
    Longer(" CYC:", cycles);
    Longer(Hex2(m.sp), " CYC:" + cycles);
    Longer(" SP=", pointer);
    Longer(Hex2(m.p), " SP=" + pointer);
    AddressesClose(vector, m, status);
  }

  lemma AddressesClose(vector: Word, m: Moment, status: string)
    requires Closes(status)
    ensures var t := " -> $" + (Hex4(vector) + (" (PC=$" + (Hex4(m.pc) + (" P=" + status))));
            |t| > 5 && t[..4] == " -> " && Closes(t)
  {
    var counter := Hex4(m.pc) + (" P=" + status);
    Hex4Reads(vector);
    Hex4Reads(m.pc);
    Longer(" P=", status);
    Longer(Hex4(m.pc), " P=" + status);
    Longer(" (PC=$", counter);
    Longer(Hex4(vector), " (PC=$" + counter);
    Longer(" -> $", Hex4(vector) + (" (PC=$" + counter));
  }

  lemma {:induction false} ArrowAfter(kind: string, tail: string)
    requires '-' !in kind && |tail| >= 4 && tail[..4] == " -> "
    ensures ArrowAt(kind + tail) == |kind| + 1
    decreases |kind|
  {
    var s := kind + tail;
    if kind == [] {
      assert s == tail && tail[0] == tail[..4][0] && tail[1] == tail[..4][1] && tail[2] == tail[..4][2];
    } else {
      assert s[0] != '-' && s[1..] == kind[1..] + tail;
      ArrowAfter(kind[1..], tail);
    }
  }

  lemma KindComesBack(kind: string, tail: string)
    requires IsKind(kind) && |tail| > 5 && tail[..4] == " -> " && !IsSpace(tail[|tail| - 1])
    ensures var line := "---- " + (kind + tail); IsMarker(line) && MarkerKind(line) == kind
  {
    var line, s := "---- " + (kind + tail), kind + tail;
    assert line[..4] == "----" && line[4..] == " " + s;
    TrimBefore(s);
    ArrowAfter(kind, tail);
    assert tail[0] == tail[..4][0];
    assert s[..|kind| + 1] == kind + " ";
    TrimAfter(kind);
  }

  lemma TrimBefore(s: string)
    requires s != [] && !IsSpace(s[0]) && !IsSpace(s[|s| - 1])
    ensures Trim(" " + s) == s
  {
    assert (" " + s)[1..] == s;
    assert TrimLeft(" " + s) == TrimLeft(s);
    TrimNothing(s);
  }

  lemma TrimAfter(s: string)
    requires s != [] && !IsSpace(s[0]) && !IsSpace(s[|s| - 1])
    ensures Trim(s + " ") == s
  {
    assert (s + " ")[..|s|] == s;
    assert TrimRight(s + " ") == TrimRight(s);
  }

  lemma InterruptLineParses(kind: string, vector: Word, m: Moment)
    requires IsKind(kind)
    ensures var line := InterruptLine(kind, vector, m);
            && line != [] && '\n' !in line && Trim(line) == line && IsMarker(line) && MarkerKind(line) == kind
  {
    var tail := MarkerTail(vector, m);
    MarkerTailShape(vector, m);
    KindComesBack(kind, tail);
    var line := "---- " + (kind + tail);
    assert line[0] == '-' && line[|line| - 1] == tail[|tail| - 1];
    TrimNothing(line);
  }

  // ---------- the whole trace ----------

  predicate Loggable(e: Entry) {
    e.at.cycles <= MAX_CYCLES && (e.Interrupt? ==> IsKind(e.kind))
  }

  /** One frame per step, tagged with the last interrupt logged since the step before. */
  function Expected(entries: seq<Entry>, pending: string): seq<Frame> {
    if entries == [] then []
    else match entries[0]
      case Step(slot, m) => [FrameOf(Decoded(slot, m), m).(interrupt := pending)] + Expected(entries[1..], [])
      case Interrupt(kind, _, _) => Expected(entries[1..], kind)
  }

  lemma ParseStepLine(slot: Slot, m: Moment, rest: string, pending: string, frames: seq<Frame>)
    requires m.cycles <= MAX_CYCLES && Parse(rest, []) == Ok(frames)
    ensures Parse(StepLine(slot, m) + "\n" + rest, pending)
            == Ok([FrameOf(Decoded(slot, m), m).(interrupt := pending)] + frames)
  {
    StepLineParses(slot, m);
    NextLineOf(StepLine(slot, m), rest);
  }

  lemma ParseMarker(kind: string, vector: Word, m: Moment, rest: string, pending: string)
    requires IsKind(kind)
    ensures Parse(InterruptLine(kind, vector, m) + "\n" + rest, pending) == Parse(rest, kind)
  {
    InterruptLineParses(kind, vector, m);
    NextLineOf(InterruptLine(kind, vector, m), rest);
  }

  /** Parsing a written trace returns every logged step in order, each tagged with the interrupt
      entered just before it. */
  lemma {:induction false} TraceReadsBack(entries: seq<Entry>, pending: string)
    requires forall k | 0 <= k < |entries| :: Loggable(entries[k])
    ensures Parse(Write(entries), pending) == Ok(Expected(entries, pending))
    decreases |entries|
  {
    if entries != [] {
      var rest := entries[1..];
      match entries[0]
      case Step(slot, m) =>
        TraceReadsBack(rest, []);
        ParseStepLine(slot, m, Write(rest), pending, Expected(rest, []));
      case Interrupt(kind, vector, m) =>
        TraceReadsBack(rest, kind);
        ParseMarker(kind, vector, m, Write(rest), pending);
    }
  }
}
