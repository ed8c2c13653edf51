/** The PIM instruction set: opcode numbering, memory-layout constants and the
    32-bit instruction format with its encoder and field decoders.

    Word layout, most significant bit first:
      opcode[31:26] (6 bits) dest[25:18] (8) src1[17:10] (8) src2[9:2] (8) imm[1:0] (2)
 */
module InstructionSet {

  /** A C++ `unsigned` / `uint32_t` value. */
  type u32 = x: int | 0 <= x < 0x1_0000_0000

  /** C++ `unsigned` arithmetic keeps the exact value modulo 2^32. */
  function Wrap(x: int): (w: u32)
    ensures 0 <= x < 0x1_0000_0000 ==> w == x
  {
    x % 0x1_0000_0000
  }

  /** An instruction word. */
  type Word = bv32

  /** An opcode value. The format has room for 64 opcodes; decoding a word can
      produce any of them, including the ones the enumeration does not name. */
  type Opcode = x: bv32 | x < 64

  // The enumeration, numbered consecutively from 0.
  const NOP: Opcode := 0
  const LOAD: Opcode := 1
  const STORE: Opcode := 2
  const MOVE: Opcode := 3
  const ADD: Opcode := 4
  const SUB: Opcode := 5
  const MUL: Opcode := 6
  const DIV: Opcode := 7
  const AND: Opcode := 8
  const OR: Opcode := 9
  const XOR: Opcode := 10
  const NOT: Opcode := 11
  const SHL: Opcode := 12
  const SHR: Opcode := 13
  const JUMP: Opcode := 14
  const JUMPZ: Opcode := 15
  const JUMPNZ: Opcode := 16
  const CONFIG: Opcode := 17

  /** Number of named opcodes (NOP .. CONFIG). */
  const OpcodeCount: nat := 18

  // Configuration parameter ids used as the dest of CONFIG.
  const ConfigArraySize: u32 := 0
  const ConfigOpMode: u32 := 1
  const ConfigPrecision: u32 := 2
  const ConfigInterconnect: u32 := 3

  // Fixed architectural offsets into the PIM linear address space, in elements.
  const MatrixAOffset: u32 := 0
  const MatrixBOffset: u32 := 1024
  const MatrixCOffset: u32 := 2048
  const RegisterFileOffset: u32 := 4096
  const InstructionMemoryOffset: u32 := 5120

  // Field shifts and masks.
  const OpcodeShift: bv32 := 26
  const OpcodeMask: bv32 := 0x3F
  const DestShift: bv32 := 18
  const DestMask: bv32 := 0xFF
  const Src1Shift: bv32 := 10
  const Src1Mask: bv32 := 0xFF
  const Src2Shift: bv32 := 2
  const Src2Mask: bv32 := 0xFF
  const ImmShift: bv32 := 0
  const ImmMask: bv32 := 0x3

  /** Every field value is truncated to its width, then shifted into place. */
  function Encode(opcode: Opcode, dest: Word, src1: Word, src2: Word, imm: Word): (w: Word)
    ensures DecodeOpcode(w) == opcode & OpcodeMask
    ensures DecodeDest(w) == dest & DestMask
    ensures DecodeSrc1(w) == src1 & Src1Mask
    ensures DecodeSrc2(w) == src2 & Src2Mask
    ensures DecodeImm(w) == imm & ImmMask
  {
    ((opcode & OpcodeMask) << OpcodeShift) |
    ((dest & DestMask) << DestShift) |
    ((src1 & Src1Mask) << Src1Shift) |
    ((src2 & Src2Mask) << Src2Shift) |
    ((imm & ImmMask) << ImmShift)
  }

  /** The opcode is exactly the top six bits of the word. */
  function DecodeOpcode(w: Word): (op: Opcode)
    ensures op << OpcodeShift == w & (OpcodeMask << OpcodeShift)
  {
    (w >> OpcodeShift) & OpcodeMask
  }

  function DecodeDest(w: Word): (d: Word)
    ensures d < 256
  {
    (w >> DestShift) & DestMask
  }

  function DecodeSrc1(w: Word): (s: Word)
    ensures s < 256
  {
    (w >> Src1Shift) & Src1Mask
  }

  function DecodeSrc2(w: Word): (s: Word)
    ensures s < 256
  {
    (w >> Src2Shift) & Src2Mask
  }

  function DecodeImm(w: Word): (i: Word)
    ensures i < 4
  {
    (w >> ImmShift) & ImmMask
  }

  /** The five fields occupy disjoint bit ranges that together cover the word. */
  lemma FieldMasksPartitionWord()
    ensures (OpcodeMask << OpcodeShift) & (DestMask << DestShift) == 0
    ensures (DestMask << DestShift) & (Src1Mask << Src1Shift) == 0
    ensures (Src1Mask << Src1Shift) & (Src2Mask << Src2Shift) == 0
    ensures (Src2Mask << Src2Shift) & (ImmMask << ImmShift) == 0
    ensures (OpcodeMask << OpcodeShift) | (DestMask << DestShift) | (Src1Mask << Src1Shift)
            | (Src2Mask << Src2Shift) | (ImmMask << ImmShift) == 0xFFFF_FFFF
  {
  }

  /** Every named opcode is below 64, so masking never changes it. */
  lemma NamedOpcodesFitField(op: Opcode)
    requires op as int < OpcodeCount
    ensures op & OpcodeMask == op
    ensures DecodeOpcode(Encode(op, 0, 0, 0, 0)) == op
  {
  }

  /** Round trip: in-range fields come back unchanged. */
  lemma DecodeEncode(opcode: Opcode, dest: Word, src1: Word, src2: Word, imm: Word)
    requires dest < 256 && src1 < 256 && src2 < 256 && imm < 4
    ensures DecodeOpcode(Encode(opcode, dest, src1, src2, imm)) == opcode
    ensures DecodeDest(Encode(opcode, dest, src1, src2, imm)) == dest
    ensures DecodeSrc1(Encode(opcode, dest, src1, src2, imm)) == src1
    ensures DecodeSrc2(Encode(opcode, dest, src1, src2, imm)) == src2
    ensures DecodeImm(Encode(opcode, dest, src1, src2, imm)) == imm
  {
  }

  /** Reverse round trip: re-encoding the decoded fields of any word gives the word back. */
  lemma EncodeDecode(w: Word)
    ensures Encode(DecodeOpcode(w), DecodeDest(w), DecodeSrc1(w), DecodeSrc2(w), DecodeImm(w)) == w
  {
  }

  /** Truncation: out-of-range values encode like their low bits. */
  lemma EncodeTruncates(opcode: Opcode, dest: Word, src1: Word, src2: Word, imm: Word)
    ensures Encode(opcode, dest, src1, src2, imm)
         == Encode(opcode, dest % 256, src1 % 256, src2 % 256, imm % 4)
  {
  }

  /** A destination of 300 encodes as 44. */
  lemma EncodeTruncatesDest300(opcode: Opcode)
    ensures Encode(opcode, 300, 0, 0, 0) == Encode(opcode, 44, 0, 0, 0)
    ensures DecodeDest(Encode(opcode, 300, 0, 0, 0)) == 44
  {
    EncodeTruncates(opcode, 300, 0, 0, 0);
  }

  /** The layout regions are in increasing order. A and B each span 1024
      elements; the gap from C to the register file is 2048 elements, and the
      register file spans 1024. */
  lemma LayoutRegionsOrdered()
    ensures MatrixAOffset < MatrixBOffset < MatrixCOffset < RegisterFileOffset < InstructionMemoryOffset
    ensures MatrixBOffset - MatrixAOffset == 1024
    ensures MatrixCOffset - MatrixBOffset == 1024
    ensures RegisterFileOffset - MatrixCOffset == 2048
    ensures InstructionMemoryOffset - RegisterFileOffset == 1024
  {
  }
}
