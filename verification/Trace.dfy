/** Execution traces: the lines the CPU writes and the parser that reads them back. */
module Trace {
  import opened Basics
  import opened Opcodes
  import opened Text

  const MAX_CYCLES := 0xFFFF_FFFF_FFFF_FFFF

  // ---------- writing ----------

  /** What is logged before an instruction: its bytes as they lie in memory, and the registers. */
  datatype Moment = Moment(pc: Word, op: Byte, b1: Byte, b2: Byte,
                           a: Byte, x: Byte, y: Byte, p: Byte, sp: Byte, cycles: nat)

  predicate IsNameChar(c: char) {
    'A' <= c <= 'Z' || c == '?'
  }

  /** A mnemonic: three capitals, or three question marks in the unassigned slots. */
  type Name = n: string | |n| == 3 && IsNameChar(n[0]) && IsNameChar(n[1]) && IsNameChar(n[2]) witness "???"

  /** Operand forms: the NMOS modes and the three the 65C02 adds. */
  datatype Form = Of(mode: Mode) | ZeroPageIndirect | IndexedIndirect | BitBranch

  /** What an opcode table says of an instruction as far as its printing goes. */
  datatype Slot = Slot(name: Name, form: Form, bytes: nat)

  /** A step carries its slot in the table of the processor that logs it. */
  datatype Entry = Step(slot: Slot, at: Moment) | Interrupt(kind: string, vector: Word, at: Moment)

  function Hex2(b: Byte): string {
    [HexDigitOf(b / 0x10), HexDigitOf(b % 0x10)]
  }

  function Hex4(w: Word): string {
    Hex2(w / 0x100) + Hex2(w % 0x100)
  }

  function Spaces(n: int): string {
    if n <= 0 then [] else [' '] + Spaces(n - 1)
  }

  /** A disassembled instruction: its own bytes, mnemonic and operand. */
  datatype Code = Code(bytes: seq<Byte>, name: string, operand: string)

  function Decoded(slot: Slot, m: Moment): Code {
    Code(OpBytes(slot.bytes, m), slot.name,
         FormText(slot.form, "$" + Hex2(m.b1), "$" + Hex4(WordOf(m.b1, m.b2)),
                  "$" + Hex4(BranchTarget(m.pc, 2, m.b1)), "$" + Hex4(BranchTarget(m.pc, 3, m.b2))))
  }

  function OpBytes(length: nat, m: Moment): (bytes: seq<Byte>)
    ensures 1 <= |bytes| <= 3
  {
    if length <= 1 then [m.op] else if length == 2 then [m.op, m.b1] else [m.op, m.b1, m.b2]
  }

  /** Branch displacements are signed and count from the next instruction. */
  function BranchTarget(pc: Word, length: nat, displacement: Byte): Word {
    (pc + length + (if displacement < 0x80 then displacement else displacement - 0x100)) % 0x1_0000
  }

  function FormText(form: Form, byte: string, word: string, target: string, bitTarget: string): string {
    match form
    case Of(mode) => Operand(mode, byte, word, target)
    case ZeroPageIndirect => "(" + byte + ")"
    case IndexedIndirect => "(" + word + ",X)"
    case BitBranch => byte + "," + bitTarget
  }

  /** Operand syntax around an already printed byte, word or branch target. */
  function Operand(mode: Mode, byte: string, word: string, target: string): string {
    match mode
    case IMP => ""
    case ACC => "A"
    case IMM => "#" + byte
    case ZP => byte
    case ZPX => byte + ",X"
    case ZPY => byte + ",Y"
    case REL => target
    case ABS => word
    case JSRABS => word
    case ABX => word + ",X"
    case ABY => word + ",Y"
    case IND => "(" + word + ")"
    case IZX => "(" + byte + ",X)"
    case IZY => "(" + byte + "),Y"
  }

  function CyclesText(m: Moment): string { "CYC:" + Decimal(m.cycles) }

  function PointerText(m: Moment): string { "SP:" + Hex2(m.sp) + " " + CyclesText(m) }

  function StatusText(m: Moment): string { "P:" + Hex2(m.p) + " " + PointerText(m) }

  function YText(m: Moment): string { "Y:" + Hex2(m.y) + " " + StatusText(m) }

  function XText(m: Moment): string { "X:" + Hex2(m.x) + " " + YText(m) }

  function AText(m: Moment): string { "A:" + Hex2(m.a) + " " + XText(m) }

  /** The disassembly column is 13 wide: the mnemonic in four, a space, the operand. */
  function Pad(c: Code): string {
    Spaces(4 - |c.name|) + " "
  }

  function Fill(c: Code): string {
    Spaces(13 - (|c.name| + |Pad(c)| + |c.operand|)) + "  "
  }

  function DisassemblyText(c: Code, rest: string): string {
    if c.operand == [] then c.name + (Pad(c) + Fill(c)) + rest
    else c.name + Pad(c) + (c.operand + Fill(c) + rest)
  }

  /** The bytes column is 8 wide. */
  function BytesText(bytes: seq<Byte>, rest: string): string {
    if |bytes| == 1 then Hex2(bytes[0]) + "        " + rest
    else if |bytes| == 2 then Hex2(bytes[0]) + " " + (Hex2(bytes[1]) + "     " + rest)
    else if |bytes| == 3 then Hex2(bytes[0]) + " " + (Hex2(bytes[1]) + " " + (Hex2(bytes[2]) + "  " + rest))
    else rest
  }

  function StepLine(slot: Slot, m: Moment): string {
    CodeLine(Decoded(slot, m), m)
  }

  function CodeLine(c: Code, m: Moment): string {
    Hex4(m.pc) + "  " + BytesText(c.bytes, DisassemblyText(c, AText(m)))
  }

  function InterruptLine(kind: string, vector: Word, m: Moment): string {
    "---- " + (kind + MarkerTail(vector, m))
  }

  function MarkerTail(vector: Word, m: Moment): string {
    " -> $" + (Hex4(vector) + (" (PC=$" + (Hex4(m.pc) + (" P=" + (Hex2(m.p) + (" SP=" + (Hex2(m.sp)
    + (" CYC:" + (Decimal(m.cycles) + ")")))))))))
  }

  function Line(e: Entry): string {
    match e
    case Step(slot, m) => StepLine(slot, m)
    case Interrupt(kind, vector, m) => InterruptLine(kind, vector, m)
  }

  function Write(entries: seq<Entry>): string {
    if entries == [] then [] else Line(entries[0]) + "\n" + Write(entries[1..])
  }

  // ---------- reading ----------

  datatype Frame = Frame(pc: Word, bytes: seq<Byte>, mnemonic: string,
                         a: Byte, x: Byte, y: Byte, p: Byte, sp: Byte, cycles: nat, interrupt: string)

  datatype Error = TooFewFields | BadPc | NoMnemonic

  /** Hexadecimal in a register tag; what cannot be read counts as 0, what does not fit as 255. */
  function HexTag(val: string): Byte {
    if val == [] || !AllHex(val) then 0 else if HexNumber(val) < 0x100 then HexNumber(val) else 0xFF
  }

  function CyclesTag(val: string): nat {
    if val == [] || !AllDigits(val) then 0
    else if DecimalValue(val) <= MAX_CYCLES then DecimalValue(val) else MAX_CYCLES
  }

  predicate IsHexByte(s: string) {
    |s| == 2 && AllHex(s)
  }

  /** The leading two-digit words. */
  function TakeBytes(fields: seq<string>): (bytes: seq<Byte>)
    ensures |bytes| <= |fields|
  {
    if fields == [] || !IsHexByte(fields[0]) then [] else [HexByte(fields[0])] + TakeBytes(fields[1..])
  }

  function HexByte(s: string): Byte
    requires IsHexByte(s)
  {
    0x10 * HexValue(s[0]) + HexValue(s[1])
  }

  predicate IsATag(s: string) {
    |s| >= 2 && s[..2] == "A:"
  }

  function UntilA(fields: seq<string>): (n: nat)
    ensures n <= |fields|
  {
    if fields == [] || IsATag(fields[0]) then 0 else 1 + UntilA(fields[1..])
  }

  function Joined(words: seq<string>): string {
    if words == [] then [] else if |words| == 1 then words[0] else words[0] + " " + Joined(words[1..])
  }

  function ColonAt(s: string): (n: nat)
    ensures n <= |s| && (n < |s| ==> s[n] == ':')
  {
    if s == [] || s[0] == ':' then 0 else 1 + ColonAt(s[1..])
  }

  function ApplyTag(f: Frame, tag: string): Frame {
    var colon := ColonAt(tag);
    if colon == |tag| then f
    else
      var key, val := tag[..colon], tag[colon + 1..];
      if key == "A" then f.(a := HexTag(val))
      else if key == "X" then f.(x := HexTag(val))
      else if key == "Y" then f.(y := HexTag(val))
      else if key == "P" then f.(p := HexTag(val))
      else if key == "SP" then f.(sp := HexTag(val))
      else if key == "CYC" then f.(cycles := CyclesTag(val))
      else f
  }

  function ApplyTags(f: Frame, tags: seq<string>): Frame
    decreases |tags|
  {
    if tags == [] then f else ApplyTags(ApplyTag(f, tags[0]), tags[1..])
  }

  function ParsePc(s: string): Option<Word> {
    if s == [] || !AllHex(s) || HexNumber(s) >= 0x1_0000 then None else Some(HexNumber(s))
  }

  function ParseFields(fields: seq<string>): Result<Frame, Error> {
    if |fields| < 5 then Err(TooFewFields)
    else match ParsePc(fields[0])
      case None => Err(BadPc)
      case Some(pc) =>
        var bytes := TakeBytes(fields[1..]);
        var rest := fields[1 + |bytes|..];
        if rest == [] then Err(NoMnemonic)
        else Ok(ApplyTags(Frame(pc, bytes, Joined(rest[..UntilA(rest)]), 0, 0, 0, 0, 0, 0, []), rest[UntilA(rest)..]))
  }

  predicate IsMarker(line: string) {
    |line| >= 4 && line[..4] == "----"
  }

  function ArrowAt(s: string): (n: nat)
    ensures n <= |s|
  {
    if |s| < 2 then |s| else if s[0] == '-' && s[1] == '>' then 0 else 1 + ArrowAt(s[1..])
  }

  /** The word between the dashes and the arrow. */
  function MarkerKind(line: string): string
    requires IsMarker(line)
  {
    var s := Trim(line[4..]);
    var n := ArrowAt(s);
    if 0 < n && n + 1 < |s| then Trim(s[..n]) else s
  }

  /** A whole trace; a marker tags the frame after it, blank lines do not count. */
  function Parse(text: string, pending: string): Result<seq<Frame>, Error>
    decreases |text|
  {
    if text == [] then Ok([])
    else
      var (raw, rest) := match NextLine(text) case None => (text, []) case Some(split) => split;
      var line := Trim(raw);
      if line == [] then Parse(rest, pending)
      else if IsMarker(line) then Parse(rest, MarkerKind(line))
      else match ParseFields(Fields(line))
        case Err(e) => Err(e)
        case Ok(f) =>
          match Parse(rest, [])
          case Err(e) => Err(e)
          case Ok(frames) => Ok([f.(interrupt := pending)] + frames)
  }
}
