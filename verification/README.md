# A verified model of the MatrixCompilerPim back end

MatrixCompilerPim compiles C++ matrix multiplication into instructions for a
processing-in-memory (PIM) accelerator. This project models its core in
Dafny and proves properties of that model:

- **The instruction set** (`instruction_set.dfy`, module `InstructionSet`).
  It covers the eighteen opcodes, the configuration parameters and the memory
  layout constants. It also covers the 32-bit instruction word: a 6-bit
  opcode, three 8-bit operand fields and a 2-bit immediate, with `encode`
  and the five field decoders. The proofs show the fields partition the word,
  that decode inverts encode on in-range fields, that encode inverts decode
  on every word, and that encode truncates wider operands.
- **The instruction** (`instruction.dfy`, module `Instructions`). It is a
  value with five fields. `toBinary` packs it into a word. `toString`
  prints the mnemonic, the operands chosen by opcode class, and
  ` ; 0x` followed by the word as eight lower-case hex digits.
  `text.dfy` (module `Text`) holds the decimal and hexadecimal formatting
  the stream output uses. `line_reader.dfy` (module `LineReader`) holds a
  reader for printed lines. With it, the model proves that a printed line
  gives back its mnemonic, its printed operands and the exact binary word.
- **The back end** (`backend.dfy`, module `Backend`). This is the code
  generator. For every defined function it appends three CONFIG
  instructions, the LOADs of A, B and a zeroed C, a six-instruction
  multiply-accumulate block per (i, j, k), and the STOREs of C. The
  caller's instruction vector is a class whose methods append to it. Each
  generator method is proved to append exactly the stream a recursive
  function describes. Lemmas index into those streams: which
  address every LOAD fills, which loaded cell every block reads and writes,
  and where the STOREs read from.
- **The memory mapper** (`memory_mapper.dfy`, module `MemoryMapper`). It
  holds the fixed matrix table and the rewrite of constant two-index
  accesses `M[r][c]` to a known global into `M[0][r * cols + c]`. It also
  holds the pass that collects every load and store of a function and then
  rewrites them one by one. The pass is proved to equal the position-wise
  rewrite, which is idempotent.
- **The refactoring assistant's instruction analysis** (`refactoring.dfy`,
  module `Refactoring`). This covers the per-mnemonic counts, the scan for
  adjacent MUL-ADD and LOAD-STORE pairs, and the three suggestion rules.
  `generated_streams.dfy` (module `GeneratedStreams`) applies the analysis
  to the back end's output. It proves the opcode histogram of a compiled
  function and shows that a compiled function never contains a MUL-ADD
  pair. It shows that a LOAD-STORE pair occurs only when the common
  dimension is zero. And it shows that every compiled module draws exactly
  one suggestion, "Reduce MOVE Operations".

Widths follow the C++ types. Every field and loop variable is an
`unsigned`, modelled as `u32`, and every address the generator computes
is reduced modulo 2^32 (`InstructionSet.Wrap`). The instruction word is a
`bv32`.

Three facts about the code shape the model:

- The second CONFIG word is `0x44041000`: the destination is shifted by
  18 bits (`LineReader.ConfigLines`).
- The suggestion code counts `instr.getOpName()`, which the instruction
  class does not declare. The model counts by the mnemonic `toString` prints.
- The suggestion code builds its message texts with `+` between two string
  literals, which does not compile. The model's suggestions are therefore
  tags that name the three keys, not message texts.

Two behaviours of the code as written are reproduced and stated as lemmas:

- The store phase reads C from `rows*cols + cols*cols + i*cols + j`, while
  C is loaded at `rows*common + common*cols + i*cols + j`. The two agree
  exactly when `common == cols`, which holds at the fixed dimensions 2, 2, 2
  (`Backend.StoreBaseIffSquare`, `Backend.StoreReadsLoadedCIffSquare`).
- The mapper does not check the indices against the table. `A[5][7]` on
  the 2 x 2 matrix A becomes `A[0][17]` (`MemoryMapper.TransformOutOfBounds`).

## Model

| member | source | states |
|---|---|---|
| InstructionSet.Encode | include/PIMInstructionSet.h:103-109 | each decoder applied to the encoded word gives back that field masked to its width |
| InstructionSet.DecodeOpcode | include/PIMInstructionSet.h:111-113 | the opcode is exactly the top six bits of the word, and below 64 |
| InstructionSet.DecodeDest | include/PIMInstructionSet.h:115-117 | the destination field is below 256 |
| InstructionSet.DecodeSrc1 | include/PIMInstructionSet.h:119-121 | the first source field is below 256 |
| InstructionSet.DecodeSrc2 | include/PIMInstructionSet.h:123-125 | the second source field is below 256 |
| InstructionSet.DecodeImm | include/PIMInstructionSet.h:127-129 | the immediate field is below 4 |
| InstructionSet.FieldMasksPartitionWord | include/PIMInstructionSet.h:80-101 | the five shifted masks are pairwise disjoint and together cover all 32 bits |
| InstructionSet.NamedOpcodesFitField | include/PIMInstructionSet.h:16-35 | every named opcode fits the 6-bit field and survives encode/decode |
| InstructionSet.DecodeEncode | include/PIMInstructionSet.h:103-129 | decoding an encoded word gives back every field when each fits its width |
| InstructionSet.EncodeDecode | include/PIMInstructionSet.h:103-129 | re-encoding the five decoded fields of any word gives back that word |
| InstructionSet.EncodeTruncates | include/PIMInstructionSet.h:103-109 | encode depends only on each operand modulo its field width |
| InstructionSet.EncodeTruncatesDest300 | include/PIMInstructionSet.h:105 | destination 300 is encoded, and decoded, as 44 |
| InstructionSet.LayoutRegionsOrdered | include/PIMInstructionSet.h:69-75 | the memory regions are in increasing order, 1024, 1024, 2048 and 1024 words apart |
| InstructionSet.Wrap | src/compiler/PIMBackend.cpp:120-122 | unsigned arithmetic keeps values already in 32 bits unchanged |
| Instructions.ToBinary | src/compiler/PIMInstruction.cpp:36-53 | the binary word is the instruction-set encoding of the five fields |
| Instructions.MnemonicsAreWords | src/compiler/PIMInstruction.cpp:59-79 | there is one mnemonic per opcode, each a non-empty upper-case word |
| Instructions.Mnemonic | src/compiler/PIMInstruction.cpp:59-79 | named opcodes get their table entry, and every other opcode gets "UNKNOWN" |
| Instructions.OpcodeNamed | src/compiler/PIMInstruction.cpp:59-79 | a lookup finds an index holding the name, or reports that no index from the start holds it |
| Instructions.MnemonicsDistinct | src/compiler/PIMInstruction.cpp:59-79 | the eighteen mnemonics are pairwise distinct, and none is "UNKNOWN" |
| Instructions.OpcodeOfMnemonic | src/compiler/PIMInstruction.cpp:59-79 | the mnemonic identifies the opcode: named opcodes are recovered, and the rest map to no name |
| Instructions.Operands | src/compiler/PIMInstruction.cpp:82-105 | the operand text never contains ';' |
| Instructions.ToString | src/compiler/PIMInstruction.cpp:55-111 | the line starts with the mnemonic and ends with " ; 0x" plus eight lower-case hex digits whose value is the binary word; that ';' is the only one |
| Instructions.ToStringParts | src/compiler/PIMInstruction.cpp:55-111 | the line is the mnemonic, the operands, " ; 0x" and the zero-padded hex word, in that order |
| Text.Decimal | src/compiler/PIMInstruction.cpp:86-104 | printed numbers are non-empty digit strings, with a leading zero only for 0 |
| Text.DecimalValue | src/compiler/PIMInstruction.cpp:86-104 | the printed digits read back as the number |
| Text.ReadDecimal | src/compiler/PIMInstruction.cpp:86-104 | reading digits followed by a non-digit gives back the number and the rest |
| Text.HexPaddedValue | src/compiler/PIMInstruction.cpp:108 | zero-padded hex of width w reads back as the value modulo 16^w |
| Text.HexPadded8Value | src/compiler/PIMInstruction.cpp:108 | eight hex digits read back as any 32-bit value exactly |
| Text.Hex8 | src/compiler/PIMInstruction.cpp:108 | the word is printed as eight lower-case hex digits whose value is the word |
| LineReader.ReadCommaList | src/compiler/PIMInstruction.cpp:86-104 | a printed comma-separated list reads back as the same numbers |
| LineReader.ReadOperandText | src/compiler/PIMInstruction.cpp:82-105 | printed operands, with the optional bracketed pair, read back exactly |
| LineReader.ReadToString | src/compiler/PIMInstruction.cpp:55-111 | every printed instruction reads back as its mnemonic, its shown operands and its exact binary word |
| LineReader.ReadJoined | src/compiler/PIMInstruction.cpp:55-111 | any line made of a mnemonic, operands, " ; 0x" and eight hex digits reads back to those parts |
| LineReader.BracketShownExactly | src/compiler/PIMInstruction.cpp:87-92 | the bracket "[src2, imm]" is printed exactly for LOAD and STORE with a non-zero src2 or imm |
| LineReader.ShownOperandCount | src/compiler/PIMInstruction.cpp:82-105 | NOP shows no operands, NOT and JUMP one, CONFIG, the conditional jumps and LOAD/STORE two, and the rest three, or four when imm is non-zero |
| LineReader.ConfigLines | src/compiler/PIMBackend.cpp:67-69 | the three CONFIG instructions print as "CONFIG 0, 4 ; 0x44001000", "CONFIG 1, 4 ; 0x44041000" and "CONFIG 2, 4 ; 0x44081000" |
| LineReader.ConfigLineAt | src/compiler/PIMInstruction.cpp:84-108 | the CONFIG line for parameter d < 3 and value 4 shows d in decimal and 4*d as the fourth hex digit of the word |
| LineReader.WideOperandPrintsInFull | src/compiler/PIMInstruction.cpp:101-108 | an operand of 300 is printed in full while its encoded field holds 44 |
| LineReader.MoveShown | src/compiler/PIMInstruction.cpp:99-105 | a MOVE without immediate shows dest, src1 and src2 |
| Backend.InstructionVector.constructor | src/compiler/PIMBackend.cpp:20 | a fresh instruction vector is empty |
| Backend.InstructionVector.PushBack | src/compiler/PIMBackend.cpp:67 | push_back appends one instruction and changes nothing else |
| Backend.GenerateMatrixLoadInstructions | src/compiler/PIMBackend.cpp:62-106 | appends exactly the load phase: three CONFIGs, then the A, B and zeroed C loads |
| Backend.LoadMatrixA | src/compiler/PIMBackend.cpp:72-81 | appends one LOAD per (i, k) in row-major order |
| Backend.LoadMatrixB | src/compiler/PIMBackend.cpp:84-93 | appends one LOAD per (k, j) in row-major order |
| Backend.ZeroMatrixC | src/compiler/PIMBackend.cpp:96-105 | appends one LOAD per (i, j) in row-major order |
| Backend.LoadPhaseLength | src/compiler/PIMBackend.cpp:62-106 | the load phase has 3 + rows*common + common*cols + rows*cols instructions and starts with the three CONFIGs |
| Backend.LoadPhaseA | src/compiler/PIMBackend.cpp:72-81 | the load of A[i][k] sits at 3 + i*common + k and targets address i*common + k |
| Backend.LoadPhaseB | src/compiler/PIMBackend.cpp:84-93 | the load of B[k][j] sits after all A loads and targets rows*common + k*cols + j |
| Backend.LoadPhaseC | src/compiler/PIMBackend.cpp:96-105 | the zeroing load of C[i][j] sits after all B loads and targets rows*common + common*cols + i*cols + j |
| Backend.LoadsFillRegion | src/compiler/PIMBackend.cpp:72-105 | without overflow, the p-th load targets address p, so the loads fill 0 .. total-1 in order |
| Backend.GenerateMatrixMultiplyInstructions | src/compiler/PIMBackend.cpp:108-140 | appends exactly the multiply phase: one block per (i, j, k), in loop order |
| Backend.MultiplyAccumulate | src/compiler/PIMBackend.cpp:118-137 | appends the blocks of one (i, j) for k = 0 .. common-1 |
| Backend.ComputePhaseLength | src/compiler/PIMBackend.cpp:116-139 | the multiply phase has 6*rows*cols*common instructions |
| Backend.ComputePhaseAt | src/compiler/PIMBackend.cpp:116-139 | the block of (i, j, k) sits at 6 * ((i*cols + j)*common + k) |
| Backend.ComputeUsesLoadedAddresses | src/compiler/PIMBackend.cpp:120-136 | each block reads A[i][k], B[k][j] and C[i][j] from the addresses the load phase filled, and writes C[i][j] back there |
| Backend.GenerateStoreResultInstructions | src/compiler/PIMBackend.cpp:142-162 | appends one STORE per (i, j) in row-major order, reading from rows*cols + cols*cols + i*cols + j |
| Backend.StorePhaseAt | src/compiler/PIMBackend.cpp:149-161 | the store of C[i][j] sits at i*cols + j with that source address and row/col operands |
| Backend.StorePhaseIgnoresCommon | src/compiler/PIMBackend.cpp:142-143 | the store phase does not depend on the common dimension |
| Backend.StoreBaseIffSquare | src/compiler/PIMBackend.cpp:96-152 | the store base equals the C load base exactly when common == cols |
| Backend.StoreReadsLoadedCIffSquare | src/compiler/PIMBackend.cpp:96-152 | a STORE reads the cell the zeroing load of C[i][j] filled exactly when common == cols |
| Backend.ProcessMatrixMultiplyFunction | src/compiler/PIMBackend.cpp:37-60 | appends the load, multiply and store phases, in that order, for dimensions `d` |
| Backend.ProgramLength | src/compiler/PIMBackend.cpp:53-59 | a compiled function has 3 + rows*common + common*cols + 2*rows*cols + 6*rows*cols*common instructions |
| Backend.DefaultProgramLength | src/compiler/PIMBackend.cpp:42-44 | at 2 x 2 x 2 the phases have 15, 48 and 4 instructions, 67 in all |
| Backend.GeneratePIMInstructions | src/compiler/PIMBackend.cpp:17-35 | the output is one compiled function per definition, declarations skipped, 67 instructions each |
| Backend.RepeatBlocks | src/compiler/PIMBackend.cpp:23-31 | the k-th slice of the output is the k-th definition's program |
| Backend.ModuleStreamBlocks | src/compiler/PIMBackend.cpp:23-31 | every 67-instruction slice of the module's output is the compiled 2 x 2 x 2 program |
| MemoryMapper.DetectMatrixDimensions | src/compiler/MemoryMapper.cpp:43-57 | the table holds exactly A, B and C, each 2 x 2 |
| MemoryMapper.DetectIgnoresModule | src/compiler/MemoryMapper.cpp:43-57 | the table does not depend on the module |
| MemoryMapper.TransformMemoryAccess | src/compiler/MemoryMapper.cpp:77-160 | each early return leaves the instruction as it was; a rewrite happens only for a load/store through a two-index GEP of a known global with constant indices, and replaces the pointer by GEP [0, row*cols + col] |
| MemoryMapper.TransformFiresIff | src/compiler/MemoryMapper.cpp:82-132 | the rewrite happens if and only if all the guards hold |
| MemoryMapper.TransformKeepsKind | src/compiler/MemoryMapper.cpp:153-157 | a load stays a load, and a store stays a store with the same stored value |
| MemoryMapper.TransformOnce | src/compiler/MemoryMapper.cpp:146-150 | a rewritten access is not rewritten again |
| MemoryMapper.TransformIgnoresRows | src/compiler/MemoryMapper.cpp:135-143 | the row count of the table is never used |
| MemoryMapper.TransformOutOfBounds | src/compiler/MemoryMapper.cpp:141-143 | A[5][7] of the 2 x 2 matrix A is rewritten to A[0][17], with no bounds check |
| MemoryMapper.LinearIndexInjective | src/compiler/MemoryMapper.cpp:141-143 | in-bounds indices map to distinct linear indices below rows*cols |
| MemoryMapper.AccessPositions | src/compiler/MemoryMapper.cpp:63-69 | the collected positions are increasing and hold exactly the loads and stores |
| MemoryMapper.Mapped | src/compiler/MemoryMapper.cpp:59-75 | the mapped body rewrites every instruction on its own and keeps the length |
| MemoryMapper.IRFunction.constructor | src/compiler/MemoryMapper.cpp:59 | a function holds the given instruction list |
| MemoryMapper.IRFunction.CollectMemoryAccesses | src/compiler/MemoryMapper.cpp:60-69 | collects the positions of all loads and stores in order |
| MemoryMapper.IRFunction.TransformAt | src/compiler/MemoryMapper.cpp:73 | rewrites one instruction in place and reports whether it changed |
| MemoryMapper.IRFunction.MapArrayAccesses | src/compiler/MemoryMapper.cpp:59-75 | after the pass the body is the position-wise mapped body |
| MemoryMapper.MappedKeepsShape | src/compiler/MemoryMapper.cpp:59-75 | the pass keeps the length and every non-memory instruction, and keeps loads as loads and stores as stores of the same value |
| MemoryMapper.MappedIdempotent | src/compiler/MemoryMapper.cpp:59-75 | running the pass twice is the same as running it once |
| Refactoring.Count | src/optimizer/RefactoringAssistant.cpp:212-215 | a name occurs at most as often as there are instructions |
| Refactoring.CountByOpcode | src/optimizer/RefactoringAssistant.cpp:212-215 | counting a named opcode by mnemonic equals counting it by opcode |
| Refactoring.CountNames | src/optimizer/RefactoringAssistant.cpp:212-215 | the counts map gives every mnemonic's count, and holds exactly the names that occur |
| Refactoring.PairsShape | src/optimizer/RefactoringAssistant.cpp:289-300 | a collected pattern list alternates first and second names, in pairs |
| Refactoring.PairsFound | src/optimizer/RefactoringAssistant.cpp:289-314 | the scan up to n collects something exactly when a pair starts before n |
| Refactoring.PairsFoundIff | src/optimizer/RefactoringAssistant.cpp:289-314 | the full scan collects something exactly when the stream has an adjacent pair |
| Refactoring.FindInstructionPatterns | src/optimizer/RefactoringAssistant.cpp:283-317 | a pattern key is present exactly when its pair occurs, and maps to every occurrence in order |
| Refactoring.SuggestInstructionOptimizations | src/optimizer/RefactoringAssistant.cpp:203-249 | each of the three suggestions is made exactly when its rule holds |
| Refactoring.CountOpConcat | src/optimizer/RefactoringAssistant.cpp:212-215 | counts add over concatenation |
| Refactoring.ConcatPairs | src/optimizer/RefactoringAssistant.cpp:289-314 | a concatenation has a pair exactly when one part has it or it straddles the seam |
| GeneratedStreams.ProgramCounts | src/compiler/PIMBackend.cpp:62-162 | the count of every opcode in a compiled function is its closed-form histogram |
| GeneratedStreams.ProgramParts | src/compiler/PIMBackend.cpp:53-59 | a compiled function is load, multiply and store phase; the multiply phase is empty exactly when a dimension is 0, and the store phase exactly when rows or cols is 0 |
| GeneratedStreams.PhaseOpcodes | src/compiler/PIMBackend.cpp:62-162 | the load phase holds only CONFIG and LOAD, and the store phase only STORE |
| GeneratedStreams.ProgramHasNoMulAdd | src/compiler/PIMBackend.cpp:129-133 | no compiled function has a MUL directly followed by an ADD |
| GeneratedStreams.ProgramLoadStoreIff | src/optimizer/RefactoringAssistant.cpp:303-314 | a compiled function has a LOAD directly followed by a STORE exactly when common == 0 and rows, cols > 0 |
| GeneratedStreams.ProgramNeverParallelized | src/optimizer/RefactoringAssistant.cpp:241-245 | a compiled function never draws the parallelisation suggestion |
| GeneratedStreams.ModuleHasNoPatterns | src/compiler/PIMBackend.cpp:17-35 | a compiled module has neither a MUL-ADD nor a LOAD-STORE pair |
| GeneratedStreams.ModuleCounts | src/compiler/PIMBackend.cpp:17-35 | per defined function, the module has 67 instructions, 32 MOVEs, 8 MULs, 8 ADDs, 12 LOADs and 4 STOREs |
| GeneratedStreams.DefaultHistogram | src/compiler/PIMBackend.cpp:42-44 | at 2 x 2 x 2 a function has 32 MOVEs, 8 MULs, 8 ADDs, 12 LOADs, 4 STOREs and 3 CONFIGs |
| GeneratedStreams.SuggestionsFromCounts | src/optimizer/RefactoringAssistant.cpp:223-245 | a stream with the module's histogram and no MUL-ADD pair gets exactly "Reduce MOVE Operations" |
| GeneratedStreams.ModuleSuggestions | src/optimizer/RefactoringAssistant.cpp:203-249 | every compiled module with a definition gets exactly the "Reduce MOVE Operations" suggestion |

## Left out

- Logging through `Logger` is output only, so it is not modelled.
- The parser, the IR generator, `main` and the memory mapper's driver `applyMemoryMapping`, which walks a module's functions, are not part of this model.
- The regular-expression rules of `findPatterns` over source text are not part of this model; of the refactoring assistant only the instruction analysis is modelled.
- LLVM objects are abstract values with no identity. A function body is a flat sequence of instructions with the basic-block boundaries dropped, and the collected instruction pointers are positions in that sequence.
- The IRBuilder folds a GEP over a global with constant indices into a constant expression. It is modelled as the `ConstGep` value, and no inserted instruction or value name ("pim_A_addr") is modelled.
- The `getZExtValue` of a constant index, which can reach 64 bits, is reduced to 32 bits as the `unsigned` assignment does. The width of the new index constant's type is not modelled.
- A module is modelled as its functions' kinds (declaration or definition); the generator reads nothing else of a function.
- The loop nests of each generator are split into one method per nest. The instructions appended and their order are the same as in the source.
- The unused local `c_offset` in the store phase is dropped.
- The fixed dimensions 2, 2, 2 are supplied to `Backend.ProcessMatrixMultiplyFunction` by `Backend.GeneratePIMInstructions` (as `Backend.DefaultDims`) rather than set inside the function; the function is proved for every `d`, and the module output only ever uses 2, 2, 2.
- Suggestion message texts are not modelled; a suggestion is a tag for its key. The `sourceCode` parameter is accepted and ignored, as in the source.
- Refactoring.FindInstructionPatterns: requires a non-empty stream, because with no instructions the source's `size() - 1` wraps around and it reads past the end.
- Refactoring.SuggestInstructionOptimizations: requires a non-empty stream, for the same reason, since it calls `findInstructionPatterns`. The `int` counters are unbounded here, so overflow past 2^31 instructions is not modelled.
- MemoryMapper.LinearIndex: carries no contract of its own. Its in-bounds facts are stated in `MemoryMapper.LinearIndexInjective`.
- The copy constructor and the five accessors of the instruction class are the datatype's copy semantics and field selectors.
