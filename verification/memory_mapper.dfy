/** The memory mapper: it rewrites two-dimensional accesses `M[row][col]` to
    a known global matrix with constant indices into the row-major access
    `M[0][row * cols + col]`.

    LLVM values are abstracted to the shapes the mapper inspects: a
    `getelementptr` instruction with its base and index operands, a global
    variable with its name, a constant integer, a constant (folded)
    `getelementptr` expression, and anything else. The builder folds a
    `getelementptr` over a global with constant indices into a constant
    expression, so a rewrite inserts no instruction; the new pointer is a
    `ConstGep`. */
module MemoryMapper {
  import opened InstructionSet

  datatype Value =
    | GlobalVar(name: string)
    | ConstInt(value: nat)
    | GepInst(sourceType: nat, base: Value, indices: seq<Value>)
    | ConstGep(sourceType: nat, base: Value, indices: seq<Value>)
    | Opaque(id: nat)

  /** An instruction: a load (pointer operand 0), a store (value operand 0,
      pointer operand 1), or any other instruction. */
  datatype Inst =
    | LoadInst(ptr: Value)
    | StoreInst(stored: Value, ptr: Value)
    | OtherInst(op: nat, operands: seq<Value>)

  /** Matrix name to its dimensions {rows, cols}. */
  type MatrixTable = map<string, seq<u32>>

  /** Every entry has the two dimensions the rewrite reads. */
  predicate WellFormedTable(t: MatrixTable) {
    forall name :: name in t ==> |t[name]| >= 2
  }

  /** The dimensions are fixed at {A: [2, 2], B: [2, 2], C: [2, 2]}; the
      module's function bodies are not inspected. */
  function DetectMatrixDimensions(functions: seq<seq<Inst>>): (t: MatrixTable)
    ensures t.Keys == {"A", "B", "C"}
    ensures forall name :: name in t ==> t[name] == [2, 2]
    ensures WellFormedTable(t)
  {
    map["A" := [2, 2], "B" := [2, 2], "C" := [2, 2]]
  }

  lemma DetectIgnoresModule(m1: seq<seq<Inst>>, m2: seq<seq<Inst>>)
    ensures DetectMatrixDimensions(m1) == DetectMatrixDimensions(m2)
  {
  }

  predicate IsMemoryAccess(inst: Inst) {
    inst.LoadInst? || inst.StoreInst?
  }

  /** The outcome of one rewrite: whether it fired and the instruction after it. */
  datatype Rewrite = Rewrite(changed: bool, inst: Inst)

  /** `row * cols + col` in C++ `unsigned` arithmetic, the row and column
      being the constants' zero-extended values truncated to `unsigned`. */
  function LinearIndex(row: nat, col: nat, cols: u32): u32
  {
    Wrap(Wrap(row) * cols + Wrap(col))
  }

  /** The same instruction with its pointer operand replaced. */
  function WithPointer(inst: Inst, p: Value): Inst
    requires IsMemoryAccess(inst)
  {
    if inst.LoadInst? then LoadInst(p) else StoreInst(inst.stored, p)
  }

  /** The decision and the rewritten instruction, condition by condition. */
  function TransformMemoryAccess(inst: Inst, table: MatrixTable): (r: Rewrite)
    requires WellFormedTable(table)
    ensures !r.changed ==> r.inst == inst
    ensures !IsMemoryAccess(inst) ==> !r.changed
    ensures IsMemoryAccess(inst) && !inst.ptr.GepInst? ==> !r.changed
    ensures IsMemoryAccess(inst) && inst.ptr.GepInst? && !inst.ptr.base.GlobalVar? ==> !r.changed
    ensures (IsMemoryAccess(inst) && inst.ptr.GepInst? && inst.ptr.base.GlobalVar?
             && inst.ptr.base.name !in table) ==> !r.changed
    ensures IsMemoryAccess(inst) && inst.ptr.GepInst? && |inst.ptr.indices| != 2 ==> !r.changed
    ensures (IsMemoryAccess(inst) && inst.ptr.GepInst? && |inst.ptr.indices| == 2
             && !(inst.ptr.indices[0].ConstInt? && inst.ptr.indices[1].ConstInt?)) ==> !r.changed
    ensures r.changed ==>
      && IsMemoryAccess(inst) && inst.ptr.GepInst?
      && inst.ptr.base.GlobalVar? && inst.ptr.base.name in table
      && |inst.ptr.indices| == 2 && inst.ptr.indices[0].ConstInt? && inst.ptr.indices[1].ConstInt?
      && r.inst == WithPointer(inst, ConstGep(inst.ptr.sourceType, inst.ptr.base,
           [ConstInt(0), ConstInt(LinearIndex(inst.ptr.indices[0].value, inst.ptr.indices[1].value,
                                              table[inst.ptr.base.name][1]))]))
  {
    if !IsMemoryAccess(inst) then Rewrite(false, inst)
    else
      var gep := inst.ptr;
      if !gep.GepInst? then Rewrite(false, inst)
      else if !gep.base.GlobalVar? then Rewrite(false, inst)
      else
        var name := gep.base.name;
        if name !in table then Rewrite(false, inst)
        else if |gep.indices| != 2 then Rewrite(false, inst)
        else
          var rowIdx, colIdx := gep.indices[0], gep.indices[1];
          if !rowIdx.ConstInt? || !colIdx.ConstInt? then Rewrite(false, inst)
          else
            var rows, cols := table[name][0], table[name][1];
            var linearIdx := LinearIndex(rowIdx.value, colIdx.value, cols);
            var newPtr := ConstGep(gep.sourceType, gep.base, [ConstInt(0), ConstInt(linearIdx)]);
            Rewrite(true, WithPointer(inst, newPtr))
  }

  /** The rewrite fires exactly when every condition holds. */
  lemma TransformFiresIff(inst: Inst, table: MatrixTable)
    requires WellFormedTable(table)
    ensures TransformMemoryAccess(inst, table).changed <==>
      && IsMemoryAccess(inst) && inst.ptr.GepInst?
      && inst.ptr.base.GlobalVar? && inst.ptr.base.name in table
      && |inst.ptr.indices| == 2 && inst.ptr.indices[0].ConstInt? && inst.ptr.indices[1].ConstInt?
  {
  }

  /** A rewrite keeps the kind of the instruction and a store's value operand. */
  lemma TransformKeepsKind(inst: Inst, table: MatrixTable)
    requires WellFormedTable(table)
    ensures var r := TransformMemoryAccess(inst, table).inst;
      && r.LoadInst? == inst.LoadInst? && r.StoreInst? == inst.StoreInst? && r.OtherInst? == inst.OtherInst?
      && (inst.StoreInst? ==> r.stored == inst.stored)
      && (inst.OtherInst? ==> r == inst)
  {
  }

  /** The new pointer is a constant expression, not a `getelementptr`
      instruction, so a rewritten access is never rewritten again. */
  lemma TransformOnce(inst: Inst, table: MatrixTable)
    requires WellFormedTable(table)
    ensures var once := TransformMemoryAccess(inst, table).inst;
      !TransformMemoryAccess(once, table).changed
  {
  }

  /** The row count is read but does not affect the rewrite. */
  lemma TransformIgnoresRows(inst: Inst, table: MatrixTable, name: string, rows1: u32, rows2: u32, cols: u32)
    requires WellFormedTable(table)
    ensures TransformMemoryAccess(inst, table[name := [rows1, cols]])
         == TransformMemoryAccess(inst, table[name := [rows2, cols]])
  {
  }

  /** No bounds check: A[5][7] of the 2 x 2 matrix A is still rewritten, to A[0][17]. */
  lemma TransformOutOfBounds()
    ensures var table := DetectMatrixDimensions([]);
      var access := LoadInst(GepInst(0, GlobalVar("A"), [ConstInt(5), ConstInt(7)]));
      TransformMemoryAccess(access, table)
        == Rewrite(true, LoadInst(ConstGep(0, GlobalVar("A"), [ConstInt(0), ConstInt(17)])))
  {
    var table := DetectMatrixDimensions([]);
    assert table["A"][1] == 2;
    assert LinearIndex(5, 7, 2) == 17;
  }

  /** In bounds and without wrap-around, distinct cells get distinct linear
      indices, all below rows * cols. */
  lemma LinearIndexInjective(r1: nat, c1: nat, r2: nat, c2: nat, rows: u32, cols: u32)
    requires r1 < rows && r2 < rows && c1 < cols && c2 < cols
    requires rows as nat * cols as nat < 0x1_0000_0000
    ensures LinearIndex(r1, c1, cols) < rows as nat * cols as nat
    ensures LinearIndex(r1, c1, cols) == LinearIndex(r2, c2, cols) ==> r1 == r2 && c1 == c2
  {
    InBoundsIndex(r1, c1, rows, cols);
    InBoundsIndex(r2, c2, rows, cols);
    if LinearIndex(r1, c1, cols) == LinearIndex(r2, c2, cols) {
      SameRowMajor(r1, c1, r2, c2, cols as nat);
    }
  }

  lemma InBoundsIndex(r: nat, c: nat, rows: u32, cols: u32)
    requires r < rows && c < cols && rows as nat * cols as nat < 0x1_0000_0000
    ensures r * cols as nat + c < rows as nat * cols as nat
    ensures LinearIndex(r, c, cols) == r * cols as nat + c
  {
    assert r * cols as nat + c < (r + 1) * cols as nat;
    assert (r + 1) * cols as nat <= rows as nat * cols as nat;
  }

  lemma SameRowMajor(r1: nat, c1: nat, r2: nat, c2: nat, w: nat)
    requires c1 < w && c2 < w && r1 * w + c1 == r2 * w + c2
    ensures r1 == r2 && c1 == c2
  {
    if r1 < r2 {
      RowsApart(r1, r2, w);
    } else if r2 < r1 {
      RowsApart(r2, r1, w);
    }
  }

  /** A later row starts at least one full row further on. */
  lemma {:induction false} RowsApart(a: nat, b: nat, w: nat)
    requires a < b
    ensures a * w + w <= b * w
    decreases b
  {
    assert b * w == (b - 1) * w + w;
    if a < b - 1 {
      RowsApart(a, b - 1, w);
    }
  }

  // ---------------------------------------------------------------------
  // One function body

  /** The positions of the loads and stores among the first `n` instructions, in order. */
  function AccessPositions(body: seq<Inst>, n: nat): (ps: seq<nat>)
    requires n <= |body|
    ensures forall t :: 0 <= t < |ps| ==> ps[t] < n && IsMemoryAccess(body[ps[t]])
    ensures forall t, u :: 0 <= t < u < |ps| ==> ps[t] < ps[u]
    ensures forall q :: 0 <= q < n && IsMemoryAccess(body[q]) ==> q in ps
  {
    if n == 0 then []
    else AccessPositions(body, n - 1) + (if IsMemoryAccess(body[n - 1]) then [n - 1] else [])
  }

  /** The body after the mapping: every instruction through the rewrite. */
  function Mapped(body: seq<Inst>, table: MatrixTable): (r: seq<Inst>)
    requires WellFormedTable(table)
    ensures |r| == |body|
    ensures forall q :: 0 <= q < |body| ==> r[q] == TransformMemoryAccess(body[q], table).inst
  {
    seq(|body|, q requires 0 <= q < |body| => TransformMemoryAccess(body[q], table).inst)
  }

  /** The body once the instructions at positions `done` have been rewritten. */
  ghost function PartlyMapped(body: seq<Inst>, table: MatrixTable, done: seq<nat>): (r: seq<Inst>)
    requires WellFormedTable(table)
  {
    seq(|body|, q requires 0 <= q < |body| =>
      if q in done then TransformMemoryAccess(body[q], table).inst else body[q])
  }

  /** Rewriting one more position, not rewritten before, updates that instruction alone. */
  lemma PartlyMappedStep(body: seq<Inst>, table: MatrixTable, done: seq<nat>, p: nat)
    requires WellFormedTable(table) && p < |body| && p !in done
    ensures PartlyMapped(body, table, done)[p] == body[p]
    ensures PartlyMapped(body, table, done + [p])
         == PartlyMapped(body, table, done)[p := TransformMemoryAccess(body[p], table).inst]
  {
  }

  /** Rewriting every position that holds a load or a store yields the mapped
      body: the rewrite leaves the other instructions alone. */
  lemma PartlyMappedAll(body: seq<Inst>, table: MatrixTable, done: seq<nat>)
    requires WellFormedTable(table)
    requires forall q :: 0 <= q < |body| && IsMemoryAccess(body[q]) ==> q in done
    ensures PartlyMapped(body, table, done) == Mapped(body, table)
  {
    forall q | 0 <= q < |body|
      ensures PartlyMapped(body, table, done)[q] == Mapped(body, table)[q]
    {
      if q !in done {
        assert !IsMemoryAccess(body[q]);
      }
    }
  }

  /** A function whose instructions the mapper rewrites in place. */
  class IRFunction {
    var body: seq<Inst>

    constructor (insts: seq<Inst>)
      ensures body == insts
    {
      body := insts;
    }

    /** First pass: the positions of every load and store, in block order. */
    method CollectMemoryAccesses() returns (toProcess: seq<nat>)
      ensures toProcess == AccessPositions(body, |body|)
    {
      toProcess := [];
      for q := 0 to |body|
        invariant toProcess == AccessPositions(body, q)
      {
        if body[q].LoadInst? || body[q].StoreInst? {
          toProcess := toProcess + [q];
        }
      }
    }

    /** Rewrites the instruction at position `p` in place and says whether it fired. */
    method TransformAt(p: nat, table: MatrixTable) returns (changed: bool)
      requires p < |body| && WellFormedTable(table)
      modifies this
      ensures body == old(body)[p := TransformMemoryAccess(old(body)[p], table).inst]
      ensures changed == TransformMemoryAccess(old(body)[p], table).changed
    {
      var r := TransformMemoryAccess(body[p], table);
      body := body[p := r.inst];
      changed := r.changed;
    }

    /** Collects the loads and stores, then rewrites each of them. */
    method MapArrayAccesses(table: MatrixTable)
      requires WellFormedTable(table)
      modifies this
      ensures body == Mapped(old(body), table)
    {
      ghost var orig := body;
      var toProcess := CollectMemoryAccesses();
      assert toProcess[..0] == [];
      for j := 0 to |toProcess|
        invariant body == PartlyMapped(orig, table, toProcess[..j])
      {
        var p := toProcess[j];
        assert p !in toProcess[..j];
        assert toProcess[..j + 1] == toProcess[..j] + [p];
        PartlyMappedStep(orig, table, toProcess[..j], p);
        var _ := TransformAt(p, table);
      }
      assert toProcess[..|toProcess|] == toProcess;
      PartlyMappedAll(orig, table, toProcess);
    }
  }

  /** The mapping keeps the number and the order of instructions and changes
      nothing but the pointer operand of a load or store. */
  lemma MappedKeepsShape(body: seq<Inst>, table: MatrixTable)
    requires WellFormedTable(table)
    ensures |Mapped(body, table)| == |body|
    ensures forall q :: 0 <= q < |body| && !IsMemoryAccess(body[q]) ==> Mapped(body, table)[q] == body[q]
    ensures forall q :: 0 <= q < |body| && body[q].LoadInst? ==> Mapped(body, table)[q].LoadInst?
    ensures forall q :: 0 <= q < |body| && body[q].StoreInst? ==>
      Mapped(body, table)[q].StoreInst? && Mapped(body, table)[q].stored == body[q].stored
  {
  }

  /** Mapping a body twice is mapping it once. */
  lemma MappedIdempotent(body: seq<Inst>, table: MatrixTable)
    requires WellFormedTable(table)
    ensures Mapped(Mapped(body, table), table) == Mapped(body, table)
  {
    forall q | 0 <= q < |body|
      ensures Mapped(Mapped(body, table), table)[q] == Mapped(body, table)[q]
    {
      TransformOnce(body[q], table);
    }
  }
}
