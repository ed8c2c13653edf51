/** One PIM instruction as an immutable value, its binary form and its text
    form `MNEMONIC operands ; 0xHHHHHHHH`, with a reader for the text form. */
module Instructions {
  import opened InstructionSet
  import opened Text
  import opened Wrappers

  /** The constructor stores its five arguments as given; the destructors are
      the accessors and return them unmasked. */
  datatype Instruction = Instruction(opcode: Opcode, dest: u32, src1: u32, src2: u32, imm: u32)

  /** The binary form, built by OR-ing each masked, shifted field into a word
      that starts at zero. */
  function ToBinary(i: Instruction): (w: Word)
    ensures w == Encode(i.opcode, i.dest as bv32, i.src1 as bv32, i.src2 as bv32, i.imm as bv32)
  {
    var result: bv32 := 0;
    var result := result | ((i.opcode & 0x3F) << 26);
    var result := result | ((i.dest as bv32 & 0xFF) << 18);
    var result := result | ((i.src1 as bv32 & 0xFF) << 10);
    var result := result | ((i.src2 as bv32 & 0xFF) << 2);
    var result := result | (i.imm as bv32 & 0x3);
    result
  }

  /** The names of the 18 named opcodes, indexed by opcode value. */
  const Mnemonics: seq<string> := [
    "NOP", "LOAD", "STORE", "MOVE", "ADD", "SUB", "MUL", "DIV", "AND", "OR",
    "XOR", "NOT", "SHL", "SHR", "JUMP", "JUMPZ", "JUMPNZ", "CONFIG"]

  predicate IsUpper(c: char) {
    'A' <= c <= 'Z'
  }

  predicate AllUpper(s: string) {
    forall k :: 0 <= k < |s| ==> IsUpper(s[k])
  }

  lemma MnemonicsAreWords()
    ensures |Mnemonics| == OpcodeCount
    ensures forall k :: 0 <= k < |Mnemonics| ==> |Mnemonics[k]| > 0 && AllUpper(Mnemonics[k])
  {
  }

  /** The mnemonic of an opcode; any value outside the enumeration is "UNKNOWN". */
  function Mnemonic(op: Opcode): (name: string)
    ensures |name| > 0 && AllUpper(name)
    ensures op as int < OpcodeCount ==> name == Mnemonics[op as int]
    ensures op as int >= OpcodeCount ==> name == "UNKNOWN"
  {
    MnemonicsAreWords();
    if op as int < |Mnemonics| then Mnemonics[op as int] else "UNKNOWN"
  }

  /** The value of the opcode a mnemonic names, looked up in the table from index `from` on. */
  function OpcodeNamed(name: string, from: nat): (r: Option<nat>)
    requires from <= |Mnemonics|
    ensures r.Some? ==> from <= r.value < |Mnemonics| && Mnemonics[r.value] == name
    ensures r.None? ==> forall k :: from <= k < |Mnemonics| ==> Mnemonics[k] != name
    decreases |Mnemonics| - from
  {
    if from == |Mnemonics| then None
    else if Mnemonics[from] == name then Some(from)
    else OpcodeNamed(name, from + 1)
  }

  lemma MnemonicsDistinct()
    ensures forall a, b :: 0 <= a < b < |Mnemonics| ==> Mnemonics[a] != Mnemonics[b]
    ensures forall a :: 0 <= a < |Mnemonics| ==> Mnemonics[a] != "UNKNOWN"
  {
  }

  /** Mnemonics name opcodes one-to-one: reading back a mnemonic gives the opcode,
      and "UNKNOWN" names no opcode. */
  lemma OpcodeOfMnemonic(op: Opcode)
    ensures op as int < OpcodeCount ==> OpcodeNamed(Mnemonic(op), 0) == Some(op as int)
    ensures op as int >= OpcodeCount ==> OpcodeNamed(Mnemonic(op), 0) == None
  {
    MnemonicsDistinct();
    var r := OpcodeNamed(Mnemonic(op), 0);
    if op as int < OpcodeCount {
      assert Mnemonics[op as int] == Mnemonic(op);
      assert r.Some?;
    }
  }

  /** The operand text after the mnemonic, by opcode class. */
  function Operands(i: Instruction): (s: string)
    ensures forall k :: 0 <= k < |s| ==> s[k] != ';'
  {
    var op := i.opcode;
    if op == NOP then
      ""
    else if op == CONFIG then
      " " + Decimal(i.dest) + ", " + Decimal(i.src1)
    else if op == LOAD || op == STORE then
      " " + Decimal(i.dest) + ", " + Decimal(i.src1)
      + (if i.src2 != 0 || i.imm != 0 then " [" + Decimal(i.src2) + ", " + Decimal(i.imm) + "]" else "")
    else if op == NOT || op == JUMP then
      " " + Decimal(i.dest)
    else if op == JUMPZ || op == JUMPNZ then
      " " + Decimal(i.dest) + ", " + Decimal(i.src1)
    else
      " " + Decimal(i.dest) + ", " + Decimal(i.src1) + ", " + Decimal(i.src2)
      + (if i.imm != 0 then ", " + Decimal(i.imm) else "")
  }

  /** The text form: mnemonic, operands, then " ; 0x" and the eight-digit word. */
  function ToString(i: Instruction): (s: string)
    ensures |s| >= |Mnemonic(i.opcode)| + 13
    ensures s[..|Mnemonic(i.opcode)|] == Mnemonic(i.opcode)
    ensures s[|s| - 13..|s| - 8] == " ; 0x"
    ensures AllLowerHex(s[|s| - 8..]) && HexValue(s[|s| - 8..]) == ToBinary(i) as int
    ensures forall k :: 0 <= k < |s| && s[k] == ';' ==> k == |s| - 12
  {
    var hex := Hex8(ToBinary(i));
    LineShape(Mnemonic(i.opcode), Operands(i), hex);
    Mnemonic(i.opcode) + Operands(i) + " ; 0x" + hex
  }

  lemma ToStringParts(i: Instruction)
    ensures ToString(i) == Mnemonic(i.opcode) + Operands(i) + " ; 0x" + Hex8(ToBinary(i))
  {
  }

  /** Where the parts of a line end up once they are joined. */
  lemma LineShape(name: string, operands: string, hex: string)
    requires AllUpper(name) && |hex| == 8 && AllLowerHex(hex)
    requires forall k :: 0 <= k < |operands| ==> operands[k] != ';'
    ensures var s := name + operands + " ; 0x" + hex;
      && |s| == |name| + |operands| + 13
      && s[..|name|] == name
      && s[..|s| - 13] == name + operands
      && s[|s| - 13..|s| - 8] == " ; 0x"
      && s[|s| - 8..] == hex
      && forall k :: 0 <= k < |s| && s[k] == ';' ==> k == |s| - 12
  {
    var head := name + operands;
    var s := head + " ; 0x" + hex;
    assert s == head + (" ; 0x" + hex);
    assert forall k :: 0 <= k < |head| ==> s[k] == head[k];
    assert forall k :: 0 <= k < |head| ==> head[k] != ';' by {
      forall k | 0 <= k < |head| ensures head[k] != ';' {
        if k < |name| { assert head[k] == name[k]; } else { assert head[k] == operands[k - |name|]; }
      }
    }
    assert forall k :: |head| + 5 <= k < |s| ==> s[k] == hex[k - |head| - 5];
  }
}
