/** What the refactoring assistant's analysis comes to on the streams the
    backend generates: the opcode histogram of a compiled function and of a
    compiled module, which adjacent patterns occur in them, and which
    suggestions follow. */
module GeneratedStreams {
  import opened InstructionSet
  import opened Instructions
  import opened Backend
  import opened Refactoring

  /** The opcode each two-level loop pushes. */
  function GridOp(g: Grid): Opcode {
    if g == StoreGrid then STORE else LOAD
  }

  lemma GridOpcodes(g: Grid, d: Dims)
    ensures AllOp(GridStream(g, d), GridOp(g))
  {
    var w, n := Inner(g, d) as nat, Outer(g, d) as nat;
    GridLength(g, d);
    forall p | 0 <= p < |GridStream(g, d)|
      ensures GridStream(g, d)[p].opcode == GridOp(g)
    {
      RowMajorSplit(p, w, n);
      var x: nat, y: nat :| x < n && y < w && p == RowMajor(x, w, y);
      GridAt(g, d, x, y);
    }
  }

  /** Instructions per multiply-accumulate block: four MOVEs, one MUL, one ADD. */
  function BlockCount(op: Opcode): nat {
    if op == MOVE then 4 else if op == MUL || op == ADD then 1 else 0
  }

  lemma BlockCounts(d: Dims, i: u32, j: u32, k: u32, op: Opcode)
    ensures CountOp(Block(d, i, j, k), op) == BlockCount(op)
  {
    var b := Block(d, i, j, k);
    CountOpPrefix(b, 1, op);
    CountOpPrefix(b, 2, op);
    CountOpPrefix(b, 3, op);
    CountOpPrefix(b, 4, op);
    CountOpPrefix(b, 5, op);
    CountOpPrefix(b, 6, op);
    assert b[..6] == b;
  }

  lemma {:induction false} KLoopCount(d: Dims, i: u32, j: u32, n: nat, op: Opcode)
    requires n <= d.common as nat
    ensures CountOp(KLoop(d, i, j, n), op) == Area(n, BlockCount(op))
  {
    if n > 0 {
      KLoopCount(d, i, j, n - 1, op);
      CountOpConcat(KLoop(d, i, j, n - 1), Block(d, i, j, (n - 1) as u32), op);
      BlockCounts(d, i, j, (n - 1) as u32, op);
      AreaStep(n, BlockCount(op));
    }
  }

  lemma {:induction false} JLoopCount(d: Dims, i: u32, n: nat, op: Opcode)
    requires n <= d.cols as nat
    ensures CountOp(JLoop(d, i, n), op) == Area(n, Area(d.common as nat, BlockCount(op)))
  {
    if n > 0 {
      JLoopCount(d, i, n - 1, op);
      CountOpConcat(JLoop(d, i, n - 1), KLoop(d, i, (n - 1) as u32, d.common as nat), op);
      KLoopCount(d, i, (n - 1) as u32, d.common as nat, op);
      AreaStep(n, Area(d.common as nat, BlockCount(op)));
    }
  }

  lemma {:induction false} ILoopCount(d: Dims, n: nat, op: Opcode)
    requires n <= d.rows as nat
    ensures CountOp(ILoop(d, n), op) == Area(n, Area(d.cols as nat, Area(d.common as nat, BlockCount(op))))
  {
    if n > 0 {
      ILoopCount(d, n - 1, op);
      CountOpConcat(ILoop(d, n - 1), JLoop(d, (n - 1) as u32, d.cols as nat), op);
      JLoopCount(d, (n - 1) as u32, d.cols as nat, op);
      AreaStep(n, Area(d.cols as nat, Area(d.common as nat, BlockCount(op))));
    }
  }

  /** The closed form: how often `op` occurs when compiling with r rows,
      c columns and common dimension m. */
  function Histogram(r: nat, c: nat, m: nat, op: Opcode): nat {
    (if op == CONFIG then 3 else 0)
    + (if op == LOAD then Area(r, m) + Area(m, c) + Area(r, c) else 0)
    + (if op == STORE then Area(r, c) else 0)
    + Area(r, Area(c, Area(m, BlockCount(op))))
  }

  /** The opcode histogram of one compiled function: 3 CONFIGs,
      r*m + m*c + r*c LOADs, r*c STOREs and r*c*m times the block's counts. */
  lemma ProgramCounts(d: Dims, op: Opcode)
    ensures CountOp(Program(d), op) == Histogram(d.rows as nat, d.cols as nat, d.common as nat, op)
  {
    var r, c, m := d.rows as nat, d.cols as nat, d.common as nat;
    var cf, a, b, z := Configs(d), GridStream(AGrid, d), GridStream(BGrid, d), GridStream(CZeroGrid, d);
    var cp, st := ComputePhase(d), StorePhase(d);
    assert Program(d) == ((((cf + a) + b) + z) + cp) + st;
    CountOpConcat(cf, a, op);
    CountOpConcat(cf + a, b, op);
    CountOpConcat(cf + a + b, z, op);
    CountOpConcat(cf + a + b + z, cp, op);
    CountOpConcat(cf + a + b + z + cp, st, op);
    assert CountOp(cf, op) == if op == CONFIG then 3 else 0 by {
      assert AllOp(cf, CONFIG);
      CountUniform(cf, CONFIG, op);
    }
    assert CountOp(a, op) == if op == LOAD then Area(r, m) else 0 by {
      GridOpcodes(AGrid, d);
      CountUniform(a, LOAD, op);
      GridLengths(d);
    }
    assert CountOp(b, op) == if op == LOAD then Area(m, c) else 0 by {
      GridOpcodes(BGrid, d);
      CountUniform(b, LOAD, op);
      GridLengths(d);
    }
    assert CountOp(z, op) == if op == LOAD then Area(r, c) else 0 by {
      GridOpcodes(CZeroGrid, d);
      CountUniform(z, LOAD, op);
      GridLengths(d);
    }
    assert CountOp(st, op) == if op == STORE then Area(r, c) else 0 by {
      GridOpcodes(StoreGrid, d);
      CountUniform(st, STORE, op);
      GridLengths(d);
    }
    assert CountOp(cp, op) == Area(r, Area(c, Area(m, BlockCount(op)))) by {
      ILoopCount(d, r, op);
    }
  }

  // ---------------------------------------------------------------------
  // Patterns in generated streams

  /** Every instruction of `s` carries one of the opcodes `ops`. */
  predicate OpsIn(s: seq<Instruction>, ops: set<Opcode>) {
    forall k :: 0 <= k < |s| ==> s[k].opcode in ops
  }

  /** A stretch of the multiply phase: MOVE, MUL and ADD only, starting and
      ending with a MOVE, and no MUL directly followed by an ADD. */
  predicate ComputeShaped(s: seq<Instruction>) {
    && OpsIn(s, {MOVE, MUL, ADD})
    && (s != [] ==> s[0].opcode == MOVE && s[|s| - 1].opcode == MOVE)
    && !HasPair(s, "MUL", "ADD")
  }

  lemma ConcatComputeShaped(s: seq<Instruction>, t: seq<Instruction>)
    requires ComputeShaped(s) && ComputeShaped(t)
    ensures ComputeShaped(s + t)
  {
    ConcatPairs(s, t, "MUL", "ADD");
    if s != [] && t != [] {
      assert OpName(s[|s| - 1]) == "MOVE";
    }
  }

  /** In a block the MUL is followed by a MOVE, not by the ADD. */
  lemma BlockShaped(d: Dims, i: u32, j: u32, k: u32)
    ensures ComputeShaped(Block(d, i, j, k))
  {
  }

  lemma {:induction false} KLoopShaped(d: Dims, i: u32, j: u32, n: nat)
    requires n <= d.common as nat
    ensures ComputeShaped(KLoop(d, i, j, n))
  {
    if n > 0 {
      KLoopShaped(d, i, j, n - 1);
      BlockShaped(d, i, j, (n - 1) as u32);
      ConcatComputeShaped(KLoop(d, i, j, n - 1), Block(d, i, j, (n - 1) as u32));
    }
  }

  lemma {:induction false} JLoopShaped(d: Dims, i: u32, n: nat)
    requires n <= d.cols as nat
    ensures ComputeShaped(JLoop(d, i, n))
  {
    if n > 0 {
      JLoopShaped(d, i, n - 1);
      KLoopShaped(d, i, (n - 1) as u32, d.common as nat);
      ConcatComputeShaped(JLoop(d, i, n - 1), KLoop(d, i, (n - 1) as u32, d.common as nat));
    }
  }

  lemma {:induction false} ILoopShaped(d: Dims, n: nat)
    requires n <= d.rows as nat
    ensures ComputeShaped(ILoop(d, n))
  {
    if n > 0 {
      ILoopShaped(d, n - 1);
      JLoopShaped(d, (n - 1) as u32, d.cols as nat);
      ConcatComputeShaped(ILoop(d, n - 1), JLoop(d, (n - 1) as u32, d.cols as nat));
    }
  }

  /** The load phase holds CONFIG and LOAD only and, when C has cells, ends
      with a LOAD; the store phase holds STORE only. */
  lemma PhaseOpcodes(d: Dims)
    ensures OpsIn(LoadPhase(d), {CONFIG, LOAD})
    ensures OpsIn(StorePhase(d), {STORE})
    ensures |StorePhase(d)| == Area(d.rows as nat, d.cols as nat)
    ensures |LoadPhase(d)| >= 3 && LoadPhase(d)[0].opcode == CONFIG
    ensures Area(d.rows as nat, d.cols as nat) > 0 ==> LoadPhase(d)[|LoadPhase(d)| - 1].opcode == LOAD
  {
    var cf, a, b, z := Configs(d), GridStream(AGrid, d), GridStream(BGrid, d), GridStream(CZeroGrid, d);
    GridOpcodes(AGrid, d);
    GridOpcodes(BGrid, d);
    GridOpcodes(CZeroGrid, d);
    GridOpcodes(StoreGrid, d);
    GridLengths(d);
    assert LoadPhase(d) == cf + (a + b + z);
    if z != [] {
      assert LoadPhase(d) == (cf + a + b) + z;
    }
  }

  lemma AreaZero(x: nat, y: nat)
    ensures Area(x, y) == 0 <==> x == 0 || y == 0
  {
    if x > 0 {
      RowBefore(0, y, x);
    }
  }

  /** Where the phases of one compiled function meet. */
  lemma ProgramParts(d: Dims)
    ensures Program(d) == (LoadPhase(d) + ComputePhase(d)) + StorePhase(d)
    ensures ComputeShaped(ComputePhase(d))
    ensures ComputePhase(d) == [] <==> d.rows == 0 || d.cols == 0 || d.common == 0
    ensures StorePhase(d) == [] <==> d.rows == 0 || d.cols == 0
  {
    ILoopShaped(d, d.rows as nat);
    ComputePhaseLength(d);
    AreaZero(d.cols as nat, d.common as nat);
    AreaZero(d.rows as nat, Area(d.cols as nat, d.common as nat));
    PhaseOpcodes(d);
    AreaZero(d.rows as nat, d.cols as nat);
  }

  /** The names of the opcodes the backend emits. */
  lemma MnemonicNames()
    ensures Mnemonic(CONFIG) == "CONFIG" && Mnemonic(LOAD) == "LOAD" && Mnemonic(STORE) == "STORE"
    ensures Mnemonic(MOVE) == "MOVE" && Mnemonic(MUL) == "MUL" && Mnemonic(ADD) == "ADD"
  {
  }

  lemma NameOf(i: Instruction)
    ensures i.opcode == CONFIG ==> OpName(i) == "CONFIG"
    ensures i.opcode == LOAD ==> OpName(i) == "LOAD"
    ensures i.opcode == STORE ==> OpName(i) == "STORE"
    ensures i.opcode == MOVE ==> OpName(i) == "MOVE"
    ensures i.opcode == MUL ==> OpName(i) == "MUL"
    ensures i.opcode == ADD ==> OpName(i) == "ADD"
  {
    MnemonicNames();
  }

  /** The load phase by name: CONFIGs and LOADs, ending in a LOAD whenever
      C, and so the store phase, has cells. */
  lemma LoadNames(d: Dims)
    ensures forall k :: 0 <= k < |LoadPhase(d)| ==> OpName(LoadPhase(d)[k]) == "CONFIG" || OpName(LoadPhase(d)[k]) == "LOAD"
    ensures StorePhase(d) != [] ==> OpName(LoadPhase(d)[|LoadPhase(d)| - 1]) == "LOAD"
  {
    var load := LoadPhase(d);
    PhaseOpcodes(d);
    AreaZero(d.rows as nat, d.cols as nat);
    forall k | 0 <= k < |load| ensures OpName(load[k]) == "CONFIG" || OpName(load[k]) == "LOAD" {
      NameOf(load[k]);
    }
    NameOf(load[|load| - 1]);
  }

  /** The multiply phase by name: MOVE, MUL and ADD, with a MOVE at each end. */
  lemma ComputeNames(d: Dims)
    ensures forall k :: 0 <= k < |ComputePhase(d)| ==>
      OpName(ComputePhase(d)[k]) == "MOVE" || OpName(ComputePhase(d)[k]) == "MUL" || OpName(ComputePhase(d)[k]) == "ADD"
    ensures ComputePhase(d) != [] ==>
      OpName(ComputePhase(d)[0]) == "MOVE" && OpName(ComputePhase(d)[|ComputePhase(d)| - 1]) == "MOVE"
  {
    var cp := ComputePhase(d);
    ILoopShaped(d, d.rows as nat);
    forall k | 0 <= k < |cp| ensures OpName(cp[k]) == "MOVE" || OpName(cp[k]) == "MUL" || OpName(cp[k]) == "ADD" {
      NameOf(cp[k]);
    }
    if cp != [] {
      NameOf(cp[0]);
      NameOf(cp[|cp| - 1]);
    }
  }

  /** The store phase by name: STOREs only. */
  lemma StoreNames(d: Dims)
    ensures forall k :: 0 <= k < |StorePhase(d)| ==> OpName(StorePhase(d)[k]) == "STORE"
  {
    var st := StorePhase(d);
    PhaseOpcodes(d);
    forall k | 0 <= k < |st| ensures OpName(st[k]) == "STORE" {
      NameOf(st[k]);
    }
  }

  /** A generated function never has a MUL directly followed by an ADD: each
      MUL is followed by the MOVE that fetches C[i][j]. */
  lemma ProgramHasNoMulAdd(d: Dims)
    ensures !HasPair(Program(d), "MUL", "ADD")
  {
    var load, cp, st := LoadPhase(d), ComputePhase(d), StorePhase(d);
    ProgramParts(d);
    LoadNames(d);
    StoreNames(d);
    NoPairWithout(load, "MUL", "ADD");
    NoPairWithout(st, "MUL", "ADD");
    ConcatPairs(load, cp, "MUL", "ADD");
    ConcatPairs(load + cp, st, "MUL", "ADD");
  }

  /** A LOAD directly followed by a STORE occurs exactly when the multiply
      phase is empty because common == 0 while C has cells: the last C load
      then meets the first result store. */
  lemma ProgramLoadStoreIff(d: Dims)
    ensures HasPair(Program(d), "LOAD", "STORE") <==> d.common == 0 && d.rows > 0 && d.cols > 0
  {
    var load, cp, st := LoadPhase(d), ComputePhase(d), StorePhase(d);
    ProgramParts(d);
    LoadNames(d);
    ComputeNames(d);
    StoreNames(d);
    NoPairWithout(load, "LOAD", "STORE");
    NoPairWithout(cp, "LOAD", "STORE");
    NoPairWithout(st, "LOAD", "STORE");
    assert !HasPair(load + cp, "LOAD", "STORE") by {
      ConcatPairs(load, cp, "LOAD", "STORE");
    }
    ConcatPairs(load + cp, st, "LOAD", "STORE");
    if cp == [] {
      assert load + cp == load;
    } else {
      assert (load + cp)[|load + cp| - 1] == cp[|cp| - 1];
    }
  }

  /** No generated function ever draws the "Parallelize Operations" suggestion. */
  lemma ProgramNeverParallelized(d: Dims, suggestions: set<Suggestion>)
    requires SuggestionsFor(Program(d), suggestions)
    ensures ParallelizeOperations !in suggestions
  {
    ProgramHasNoMulAdd(d);
  }

  // ---------------------------------------------------------------------
  // Whole modules

  /** Copies of a pair-free program that does not start with `b` stay pair-free. */
  lemma {:induction false} RepeatPairFree(functions: seq<FunctionKind>, n: nat, program: seq<Instruction>, a: string, b: string)
    requires n <= |functions|
    requires !HasPair(program, a, b) && (program != [] ==> OpName(program[0]) != b)
    ensures !HasPair(Repeat(functions, n, program), a, b)
  {
    if n > 0 {
      var front := Repeat(functions, n - 1, program);
      var tail := if functions[n - 1].Declaration? then [] else program;
      RepeatPairFree(functions, n - 1, program, a, b);
      ConcatPairs(front, tail, a, b);
    }
  }

  lemma {:induction false} RepeatCount(functions: seq<FunctionKind>, n: nat, program: seq<Instruction>, op: Opcode)
    requires n <= |functions|
    ensures CountOp(Repeat(functions, n, program), op) == Area(Definitions(functions, n), CountOp(program, op))
  {
    if n > 0 {
      var front := Repeat(functions, n - 1, program);
      var tail := if functions[n - 1].Declaration? then [] else program;
      RepeatCount(functions, n - 1, program, op);
      CountOpConcat(front, tail, op);
      if functions[n - 1].Definition? {
        AreaStep(Definitions(functions, n), CountOp(program, op));
      }
    }
  }

  /** The compiled module has no MUL-ADD and no LOAD-STORE pair, so both
      pattern scans come back empty: each program ends in STOREs and starts
      with a CONFIG. */
  lemma ModuleHasNoPatterns(functions: seq<FunctionKind>)
    ensures !HasPair(ModuleStream(functions), "MUL", "ADD")
    ensures !HasPair(ModuleStream(functions), "LOAD", "STORE")
  {
    var p := Program(DefaultDims);
    ProgramHasNoMulAdd(DefaultDims);
    ProgramLoadStoreIff(DefaultDims);
    assert OpName(p[0]) == "CONFIG" by {
      ProgramParts(DefaultDims);
      PhaseOpcodes(DefaultDims);
      NameOf(LoadPhase(DefaultDims)[0]);
    }
    RepeatPairFree(functions, |functions|, p, "MUL", "ADD");
    RepeatPairFree(functions, |functions|, p, "LOAD", "STORE");
  }

  /** The histogram at the dimensions every function is compiled with. */
  lemma DefaultHistogram()
    ensures Histogram(2, 2, 2, MOVE) == 32 && Histogram(2, 2, 2, MUL) == 8 && Histogram(2, 2, 2, ADD) == 8
    ensures Histogram(2, 2, 2, LOAD) == 12 && Histogram(2, 2, 2, STORE) == 4 && Histogram(2, 2, 2, CONFIG) == 3
  {
  }

  /** Per-name counts of the compiled module: per defined function 32 MOVEs,
      8 MULs, 8 ADDs, 12 LOADs and 4 STOREs. */
  lemma ModuleCounts(functions: seq<FunctionKind>)
    ensures var m, n := ModuleStream(functions), Definitions(functions, |functions|);
      && |m| == 67 * n
      && Count(m, "MOVE") == 32 * n && Count(m, "MUL") == 8 * n && Count(m, "ADD") == 8 * n
      && Count(m, "LOAD") == 12 * n && Count(m, "STORE") == 4 * n
  {
    ModuleStreamLength(functions);
    MnemonicNames();
    DefaultHistogram();
    var m, n := ModuleStream(functions), Definitions(functions, |functions|);
    assert Count(m, "MOVE") == 32 * n by { ModuleOpCount(functions, MOVE); }
    assert Count(m, "MUL") == 8 * n by { ModuleOpCount(functions, MUL); }
    assert Count(m, "ADD") == 8 * n by { ModuleOpCount(functions, ADD); }
    assert Count(m, "LOAD") == 12 * n by { ModuleOpCount(functions, LOAD); }
    assert Count(m, "STORE") == 4 * n by { ModuleOpCount(functions, STORE); }
  }

  /** Counting one opcode over the module: once per defined function. */
  lemma ModuleOpCount(functions: seq<FunctionKind>, op: Opcode)
    requires op as int < OpcodeCount
    ensures Count(ModuleStream(functions), Mnemonic(op))
         == Area(Definitions(functions, |functions|), Histogram(2, 2, 2, op))
  {
    RepeatCount(functions, |functions|, Program(DefaultDims), op);
    CountByOpcode(ModuleStream(functions), op);
    ProgramCounts(DefaultDims, op);
  }

  /** The three rules on any stream with the module's histogram: MOVEs are
      32 of every 67 instructions, which is more than a third, and 16 compute
      instructions against 16 memory ones is not low intensity. */
  lemma SuggestionsFromCounts(instrs: seq<Instruction>, n: nat, suggestions: set<Suggestion>)
    requires n >= 1 && |instrs| == 67 * n
    requires Count(instrs, "MOVE") == 32 * n && Count(instrs, "MUL") == 8 * n && Count(instrs, "ADD") == 8 * n
    requires Count(instrs, "LOAD") == 12 * n && Count(instrs, "STORE") == 4 * n
    requires !HasPair(instrs, "MUL", "ADD")
    requires SuggestionsFor(instrs, suggestions)
    ensures suggestions == {ReduceMoves}
  {
    assert 3 * (|instrs| / 3) <= |instrs|;
    assert ReduceMoves in suggestions;
    assert ImproveComputationIntensity !in suggestions;
    assert ParallelizeOperations !in suggestions;
    forall x: Suggestion ensures x in suggestions <==> x in {ReduceMoves} {
      if x.ReduceMoves? {
      } else if x.ImproveComputationIntensity? {
      } else {
      }
    }
  }

  /** Every module with at least one defined function gets exactly the
      "Reduce MOVE Operations" suggestion. */
  lemma ModuleSuggestions(functions: seq<FunctionKind>, suggestions: set<Suggestion>)
    requires Definitions(functions, |functions|) >= 1
    requires SuggestionsFor(ModuleStream(functions), suggestions)
    ensures suggestions == {ReduceMoves}
  {
    ModuleCounts(functions);
    ModuleHasNoPatterns(functions);
    SuggestionsFromCounts(ModuleStream(functions), Definitions(functions, |functions|), suggestions);
  }
}
