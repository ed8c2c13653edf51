/** The code-generation backend: for C (rows x cols) = A (rows x common) * B
    (common x cols) it appends a fixed instruction stream to a caller-owned
    vector, in three phases (load, multiply, store).

    Each phase is specified by a function that mirrors the nested loops of
    the generator, and the generator methods are proved to append exactly
    that function's value. Addresses are C++ `unsigned` arithmetic: the exact
    value reduced modulo 2^32 (`Wrap`). */
module Backend {
  import opened InstructionSet
  import opened Instructions

  /** Matrix dimensions. */
  datatype Dims = Dims(rows: u32, cols: u32, common: u32)

  /** The dimensions every function is compiled with. */
  const DefaultDims: Dims := Dims(2, 2, 2)

  // ---------------------------------------------------------------------
  // Row-major arithmetic

  /** The number of cells in an `a` by `b` grid: a * b. */
  function Area(a: nat, b: nat): nat {
    a * b
  }

  /** The row-major position of cell (x, y) in rows of width `w`: x * w + y. */
  function RowMajor(x: nat, w: nat, y: nat): nat {
    Area(x, w) + y
  }

  lemma AreaStep(n: nat, w: nat)
    requires n > 0
    ensures Area(n, w) == Area(n - 1, w) + w
  {
    assert n * w == (n - 1) * w + w;
  }

  /** Splitting the rows of a grid in two splits its area. */
  lemma AreaAdd(a: nat, b: nat, w: nat)
    ensures Area(a + b, w) == Area(a, w) + Area(b, w)
  {
    assert (a + b) * w == a * w + b * w;
  }

  /** An i by c grid of m-cell blocks has as many cells as i rows of c * m cells. */
  lemma AreaNested(i: nat, c: nat, m: nat)
    ensures Area(Area(i, c), m) == Area(i, Area(c, m))
  {
    assert (i * c) * m == i * (c * m);
  }

  /** The rows before row `x` and row `x` itself fit in the first `n` rows. */
  lemma {:induction false} RowBefore(x: nat, w: nat, n: nat)
    requires x < n
    ensures Area(x, w) + w <= Area(n, w)
  {
    if x < n - 1 {
      RowBefore(x, w, n - 1);
      AreaStep(n, w);
    } else {
      AreaStep(n, w);
    }
  }

  /** A cell of an `n` by `w` grid lies inside it, and before the last row
      unless it is in the last row. */
  lemma RowMajorBelow(x: nat, y: nat, w: nat, n: nat)
    requires x < n && y < w
    ensures RowMajor(x, w, y) < Area(n, w)
    ensures x < n - 1 ==> RowMajor(x, w, y) < Area(n - 1, w)
  {
    RowBefore(x, w, n);
    if x < n - 1 {
      RowBefore(x, w, n - 1);
    }
  }

  /** Every position inside an `n` by `w` grid is the position of one of its cells. */
  lemma {:induction false} RowMajorSplit(p: nat, w: nat, n: nat)
    requires p < Area(n, w)
    ensures exists x: nat, y: nat :: x < n && y < w && p == RowMajor(x, w, y)
  {
    if p < Area(n - 1, w) {
      RowMajorSplit(p, w, n - 1);
      var x: nat, y: nat :| x < n - 1 && y < w && p == RowMajor(x, w, y);
      assert x < n && y < w && p == RowMajor(x, w, y);
    } else {
      var y: nat := p - Area(n - 1, w);
      assert n - 1 < n && y < w && p == RowMajor(n - 1, w, y);
    }
  }

  /** Nested row-major positions flatten: ((i * c + j) * m + k) == i * (c * m) + (j * m + k). */
  lemma RowMajorNested(i: nat, c: nat, j: nat, m: nat, k: nat)
    ensures RowMajor(RowMajor(i, c, j), m, k) == RowMajor(i, Area(c, m), RowMajor(j, m, k))
  {
    AreaAdd(Area(i, c), j, m);
    AreaNested(i, c, m);
  }

  /** Every address the generators compute stays below 2^32, so no `unsigned`
      product or sum wraps around. */
  predicate NoOverflow(d: Dims) {
    && Area(d.rows, d.common) + Area(d.common, d.cols) + Area(d.rows, d.cols) < 0x1_0000_0000
    && Area(d.rows, d.cols) + Area(d.cols, d.cols) + Area(d.rows, d.cols) < 0x1_0000_0000
  }

  // ---------------------------------------------------------------------
  // The caller-owned vector

  /** A `std::vector<PIMInstruction>` that the generators only append to. */
  class InstructionVector {
    var items: seq<Instruction>

    constructor ()
      ensures items == []
    {
      items := [];
    }

    method PushBack(x: Instruction)
      modifies this
      ensures items == old(items) + [x]
    {
      items := items + [x];
    }
  }

  lemma AppendAssoc(a: seq<Instruction>, b: seq<Instruction>, c: seq<Instruction>)
    ensures a + b + c == a + (b + c)
  {
  }

  /** Six single pushes append a six-element sequence. */
  lemma SixPushes(s: seq<Instruction>, b: seq<Instruction>)
    requires |b| == 6
    ensures s + [b[0]] + [b[1]] + [b[2]] + [b[3]] + [b[4]] + [b[5]] == s + b
  {
    assert b == [b[0], b[1], b[2], b[3], b[4], b[5]];
  }

  /** A slice inside the first part of a concatenation is a slice of the first part. */
  lemma SlicePrefix(s: seq<Instruction>, t: seq<Instruction>, lo: nat, hi: nat)
    requires lo <= hi <= |s|
    ensures (s + t)[lo..hi] == s[lo..hi]
  {
  }

  /** Indexing inside the first part of a concatenation indexes the first part. */
  lemma PrefixIndex(s: seq<Instruction>, t: seq<Instruction>, p: nat)
    requires p < |s|
    ensures p < |s + t| && (s + t)[p] == s[p]
  {
  }

  /** Indexing past the first part of a concatenation indexes the second part. */
  lemma ConcatIndex(s: seq<Instruction>, t: seq<Instruction>, p: nat)
    requires p < |t|
    ensures |s| + p < |s + t| && (s + t)[|s| + p] == t[p]
  {
  }

  // ---------------------------------------------------------------------
  // Two-level loops that push one instruction per iteration

  /** The four two-level loops: A loads (i, k), B loads (k, j), zeroed C loads
      (i, j) and result stores (i, j). */
  datatype Grid = AGrid | BGrid | CZeroGrid | StoreGrid

  /** The bound of the outer loop. */
  function Outer(g: Grid, d: Dims): u32 {
    match g
    case AGrid => d.rows
    case BGrid => d.common
    case CZeroGrid => d.rows
    case StoreGrid => d.rows
  }

  /** The bound of the inner loop. */
  function Inner(g: Grid, d: Dims): u32 {
    match g
    case AGrid => d.common
    case BGrid => d.cols
    case CZeroGrid => d.cols
    case StoreGrid => d.cols
  }

  /** The instruction pushed in iteration (x, y). */
  function Cell(g: Grid, d: Dims, x: u32, y: u32): Instruction {
    var r, c, m := d.rows, d.cols, d.common;
    match g
    case AGrid => Instruction(LOAD, Wrap(RowMajor(x, m, y)), 0, x, y)
    case BGrid => Instruction(LOAD, Wrap(Area(r, m) + RowMajor(x, c, y)), 0, x, y)
    case CZeroGrid => Instruction(LOAD, Wrap(Area(r, m) + Area(m, c) + RowMajor(x, c, y)), 0, x, y)
    case StoreGrid => Instruction(STORE, 0, Wrap(Area(r, c) + Area(c, c) + RowMajor(x, c, y)), x, y)
  }

  /** The first `n` iterations of the inner loop for outer index `x`. */
  function Row(g: Grid, d: Dims, x: u32, n: nat): seq<Instruction>
    requires n <= Inner(g, d) as nat
  {
    if n == 0 then [] else Row(g, d, x, n - 1) + [Cell(g, d, x, (n - 1) as u32)]
  }

  /** The first `n` iterations of the outer loop. */
  function Rows(g: Grid, d: Dims, n: nat): seq<Instruction>
    requires n <= Outer(g, d) as nat
  {
    if n == 0 then [] else Rows(g, d, n - 1) + Row(g, d, (n - 1) as u32, Inner(g, d) as nat)
  }

  /** Everything a two-level loop pushes. */
  function GridStream(g: Grid, d: Dims): seq<Instruction> {
    Rows(g, d, Outer(g, d) as nat)
  }

  lemma {:induction false} RowLength(g: Grid, d: Dims, x: u32, n: nat)
    requires n <= Inner(g, d) as nat
    ensures |Row(g, d, x, n)| == n
  {
    if n > 0 {
      RowLength(g, d, x, n - 1);
    }
  }

  lemma {:induction false} RowAt(g: Grid, d: Dims, x: u32, n: nat, y: nat)
    requires n <= Inner(g, d) as nat && y < n
    ensures |Row(g, d, x, n)| == n
    ensures Row(g, d, x, n)[y] == Cell(g, d, x, y as u32)
  {
    RowLength(g, d, x, n - 1);
    if y < n - 1 {
      RowAt(g, d, x, n - 1, y);
      PrefixIndex(Row(g, d, x, n - 1), [Cell(g, d, x, (n - 1) as u32)], y);
    }
  }

  lemma {:induction false} RowsLength(g: Grid, d: Dims, n: nat)
    requires n <= Outer(g, d) as nat
    ensures |Rows(g, d, n)| == Area(n, Inner(g, d) as nat)
  {
    if n > 0 {
      var w := Inner(g, d) as nat;
      RowsLength(g, d, n - 1);
      RowLength(g, d, (n - 1) as u32, w);
      AreaStep(n, w);
    }
  }

  /** Iteration (x, y) of the first `n` outer iterations is at its row-major position. */
  lemma {:induction false} RowsAt(g: Grid, d: Dims, n: nat, x: nat, y: nat)
    requires n <= Outer(g, d) as nat && x < n && y < Inner(g, d) as nat
    ensures RowMajor(x, Inner(g, d) as nat, y) < |Rows(g, d, n)|
    ensures Rows(g, d, n)[RowMajor(x, Inner(g, d) as nat, y)] == Cell(g, d, x as u32, y as u32)
  {
    var w := Inner(g, d) as nat;
    var p := RowMajor(x, w, y);
    var front, last := Rows(g, d, n - 1), Row(g, d, (n - 1) as u32, w);
    assert Rows(g, d, n) == front + last;
    assert |front| == Area(n - 1, w) by { RowsLength(g, d, n - 1); }
    assert p < Area(n, w) && (x < n - 1 ==> p < Area(n - 1, w)) by { RowMajorBelow(x, y, w, n); }
    if x < n - 1 {
      RowsAt(g, d, n - 1, x, y);
      PrefixIndex(front, last, p);
    } else {
      assert p == |front| + y;
      RowAt(g, d, (n - 1) as u32, w, y);
      ConcatIndex(front, last, y);
    }
  }

  lemma GridLength(g: Grid, d: Dims)
    ensures |GridStream(g, d)| == Area(Outer(g, d) as nat, Inner(g, d) as nat)
  {
    RowsLength(g, d, Outer(g, d) as nat);
  }

  /** A whole two-level loop pushes its cells in row-major order. */
  lemma GridAt(g: Grid, d: Dims, x: nat, y: nat)
    requires x < Outer(g, d) as nat && y < Inner(g, d) as nat
    ensures RowMajor(x, Inner(g, d) as nat, y) < |GridStream(g, d)|
    ensures GridStream(g, d)[RowMajor(x, Inner(g, d) as nat, y)] == Cell(g, d, x as u32, y as u32)
  {
    RowsAt(g, d, Outer(g, d) as nat, x, y);
  }

  // ---------------------------------------------------------------------
  // Load phase

  /** The three configuration instructions: A size, B size, C size. */
  function Configs(d: Dims): seq<Instruction> {
    [Instruction(CONFIG, 0, Wrap(Area(d.rows, d.common)), 0, 0),
     Instruction(CONFIG, 1, Wrap(Area(d.common, d.cols)), 0, 0),
     Instruction(CONFIG, 2, Wrap(Area(d.rows, d.cols)), 0, 0)]
  }

  /** Everything the load generator appends. */
  function LoadPhase(d: Dims): seq<Instruction> {
    Configs(d) + GridStream(AGrid, d) + GridStream(BGrid, d) + GridStream(CZeroGrid, d)
  }

  lemma GridLengths(d: Dims)
    ensures |GridStream(AGrid, d)| == Area(d.rows, d.common)
    ensures |GridStream(BGrid, d)| == Area(d.common, d.cols)
    ensures |GridStream(CZeroGrid, d)| == Area(d.rows, d.cols)
    ensures |GridStream(StoreGrid, d)| == Area(d.rows, d.cols)
  {
    GridLength(AGrid, d);
    GridLength(BGrid, d);
    GridLength(CZeroGrid, d);
    GridLength(StoreGrid, d);
  }

  /** The load phase is three CONFIGs, then r*m A loads, m*c B loads and r*c C loads. */
  lemma LoadPhaseLength(d: Dims)
    ensures |LoadPhase(d)| == 3 + Area(d.rows, d.common) + Area(d.common, d.cols) + Area(d.rows, d.cols)
    ensures LoadPhase(d)[..3] == Configs(d)
  {
    GridLengths(d);
  }

  /** Where each grid sits in the load phase. */
  lemma LoadPhaseParts(d: Dims, p: nat)
    ensures var a, b, z := GridStream(AGrid, d), GridStream(BGrid, d), GridStream(CZeroGrid, d);
      && |LoadPhase(d)| == 3 + |a| + |b| + |z|
      && (p < |a| ==> LoadPhase(d)[3 + p] == a[p])
      && (p < |b| ==> LoadPhase(d)[3 + |a| + p] == b[p])
      && (p < |z| ==> LoadPhase(d)[3 + |a| + |b| + p] == z[p])
  {
    var a, b, z := GridStream(AGrid, d), GridStream(BGrid, d), GridStream(CZeroGrid, d);
    var cf := Configs(d);
    assert LoadPhase(d) == cf + (a + (b + z));
    if p < |a| {
      PrefixIndex(a, b + z, p);
      ConcatIndex(cf, a + (b + z), p);
    }
    if p < |b| {
      assert LoadPhase(d) == (cf + a) + (b + z);
      PrefixIndex(b, z, p);
      ConcatIndex(cf + a, b + z, p);
    }
    if p < |z| {
      assert LoadPhase(d) == (cf + a + b) + z;
      ConcatIndex(cf + a + b, z, p);
    }
  }

  /** The A load of iteration (i, k): LOAD(i*m + k, 0, i, k). */
  lemma LoadPhaseA(d: Dims, i: u32, k: u32)
    requires i < d.rows && k < d.common
    ensures 3 + RowMajor(i, d.common, k) < |LoadPhase(d)|
    ensures LoadPhase(d)[3 + RowMajor(i, d.common, k)]
         == Instruction(LOAD, Wrap(RowMajor(i, d.common, k)), 0, i, k)
  {
    GridAt(AGrid, d, i as nat, k as nat);
    LoadPhaseParts(d, RowMajor(i, d.common, k));
  }

  /** The B load of iteration (k, j): LOAD(r*m + k*c + j, 0, k, j). */
  lemma LoadPhaseB(d: Dims, k: u32, j: u32)
    requires k < d.common && j < d.cols
    ensures 3 + Area(d.rows, d.common) + RowMajor(k, d.cols, j) < |LoadPhase(d)|
    ensures LoadPhase(d)[3 + Area(d.rows, d.common) + RowMajor(k, d.cols, j)]
         == Instruction(LOAD, Wrap(Area(d.rows, d.common) + RowMajor(k, d.cols, j)), 0, k, j)
  {
    GridLengths(d);
    GridAt(BGrid, d, k as nat, j as nat);
    LoadPhaseParts(d, RowMajor(k, d.cols, j));
  }

  /** The zeroing load of C in iteration (i, j): LOAD(r*m + m*c + i*c + j, 0, i, j). */
  lemma LoadPhaseC(d: Dims, i: u32, j: u32)
    requires i < d.rows && j < d.cols
    ensures 3 + Area(d.rows, d.common) + Area(d.common, d.cols) + RowMajor(i, d.cols, j) < |LoadPhase(d)|
    ensures LoadPhase(d)[3 + Area(d.rows, d.common) + Area(d.common, d.cols) + RowMajor(i, d.cols, j)]
         == Instruction(LOAD, Wrap(Area(d.rows, d.common) + Area(d.common, d.cols) + RowMajor(i, d.cols, j)), 0, i, j)
  {
    GridLengths(d);
    GridAt(CZeroGrid, d, i as nat, j as nat);
    LoadPhaseParts(d, RowMajor(i, d.cols, j));
  }

  /** Without overflow, the loads after the three CONFIGs fill the region from
      address 0 upward with no gap and no repeat: the p-th load writes address
      p. So A occupies [0, r*m), B [r*m, r*m + m*c) and C [r*m + m*c,
      r*m + m*c + r*c), contiguous and pairwise disjoint. */
  lemma LoadsFillRegion(d: Dims, p: nat)
    requires NoOverflow(d)
    requires p < Area(d.rows, d.common) + Area(d.common, d.cols) + Area(d.rows, d.cols)
    ensures 3 + p < |LoadPhase(d)|
    ensures LoadPhase(d)[3 + p].opcode == LOAD
    ensures LoadPhase(d)[3 + p].dest == p
  {
    var am, bm := Area(d.rows, d.common), Area(d.common, d.cols);
    if p < am {
      LoadsFillA(d, p);
    } else if p < am + bm {
      LoadsFillB(d, p - am);
    } else {
      LoadsFillC(d, p - am - bm);
    }
  }

  lemma LoadsFillA(d: Dims, p: nat)
    requires NoOverflow(d) && p < Area(d.rows, d.common)
    ensures 3 + p < |LoadPhase(d)|
    ensures LoadPhase(d)[3 + p].opcode == LOAD && LoadPhase(d)[3 + p].dest == p
  {
    RowMajorSplit(p, d.common as nat, d.rows as nat);
    var x: nat, y: nat :| x < d.rows as nat && y < d.common as nat && p == RowMajor(x, d.common as nat, y);
    LoadPhaseA(d, x as u32, y as u32);
  }

  lemma LoadsFillB(d: Dims, q: nat)
    requires NoOverflow(d) && q < Area(d.common, d.cols)
    ensures 3 + Area(d.rows, d.common) + q < |LoadPhase(d)|
    ensures var l := LoadPhase(d)[3 + Area(d.rows, d.common) + q];
      l.opcode == LOAD && l.dest == Area(d.rows, d.common) + q
  {
    RowMajorSplit(q, d.cols as nat, d.common as nat);
    var x: nat, y: nat :| x < d.common as nat && y < d.cols as nat && q == RowMajor(x, d.cols as nat, y);
    LoadPhaseB(d, x as u32, y as u32);
  }

  lemma LoadsFillC(d: Dims, q: nat)
    requires NoOverflow(d) && q < Area(d.rows, d.cols)
    ensures 3 + Area(d.rows, d.common) + Area(d.common, d.cols) + q < |LoadPhase(d)|
    ensures var l := LoadPhase(d)[3 + Area(d.rows, d.common) + Area(d.common, d.cols) + q];
      l.opcode == LOAD && l.dest == Area(d.rows, d.common) + Area(d.common, d.cols) + q
  {
    RowMajorSplit(q, d.cols as nat, d.rows as nat);
    var x: nat, y: nat :| x < d.rows as nat && y < d.cols as nat && q == RowMajor(x, d.cols as nat, y);
    LoadPhaseC(d, x as u32, y as u32);
  }

  /** Pushes the three CONFIGs, then runs the A, B and zeroed-C loop nests in
      order. Each loop nest is a method of its own below. */
  method GenerateMatrixLoadInstructions(v: InstructionVector, d: Dims)
    modifies v
    ensures v.items == old(v.items) + LoadPhase(d)
  {
    ghost var start := v.items;
    v.PushBack(Instruction(CONFIG, 0, Wrap(Area(d.rows, d.common)), 0, 0));
    v.PushBack(Instruction(CONFIG, 1, Wrap(Area(d.common, d.cols)), 0, 0));
    v.PushBack(Instruction(CONFIG, 2, Wrap(Area(d.rows, d.cols)), 0, 0));
    assert v.items == start + Configs(d);
    ghost var a, b := GridStream(AGrid, d), GridStream(BGrid, d);
    LoadMatrixA(v, d);
    AppendAssoc(start, Configs(d), a);
    LoadMatrixB(v, d);
    AppendAssoc(start, Configs(d) + a, b);
    ZeroMatrixC(v, d);
    AppendAssoc(start, Configs(d) + a + b, GridStream(CZeroGrid, d));
  }

  /** for i < rows, for k < common: LOAD A[i][k] into address i * common + k. */
  method LoadMatrixA(v: InstructionVector, d: Dims)
    modifies v
    ensures v.items == old(v.items) + GridStream(AGrid, d)
  {
    ghost var base := v.items;
    for i := 0 to d.rows
      invariant v.items == base + Rows(AGrid, d, i)
    {
      ghost var rowStart := v.items;
      for k := 0 to d.common
        invariant v.items == rowStart + Row(AGrid, d, i, k)
      {
        v.PushBack(Instruction(LOAD, Wrap(RowMajor(i, d.common, k)), 0, i, k));
        AppendAssoc(rowStart, Row(AGrid, d, i, k), [Cell(AGrid, d, i, k)]);
      }
      AppendAssoc(base, Rows(AGrid, d, i), Row(AGrid, d, i, d.common as nat));
    }
  }

  /** for k < common, for j < cols: LOAD B[k][j] into address rows * common + k * cols + j. */
  method LoadMatrixB(v: InstructionVector, d: Dims)
    modifies v
    ensures v.items == old(v.items) + GridStream(BGrid, d)
  {
    ghost var base := v.items;
    for k := 0 to d.common
      invariant v.items == base + Rows(BGrid, d, k)
    {
      ghost var rowStart := v.items;
      for j := 0 to d.cols
        invariant v.items == rowStart + Row(BGrid, d, k, j)
      {
        v.PushBack(Instruction(LOAD, Wrap(Area(d.rows, d.common) + RowMajor(k, d.cols, j)), 0, k, j));
        AppendAssoc(rowStart, Row(BGrid, d, k, j), [Cell(BGrid, d, k, j)]);
      }
      AppendAssoc(base, Rows(BGrid, d, k), Row(BGrid, d, k, d.cols as nat));
    }
  }

  /** for i < rows, for j < cols: LOAD a zero for C[i][j] into address
      rows * common + common * cols + i * cols + j. */
  method ZeroMatrixC(v: InstructionVector, d: Dims)
    modifies v
    ensures v.items == old(v.items) + GridStream(CZeroGrid, d)
  {
    ghost var base := v.items;
    for i := 0 to d.rows
      invariant v.items == base + Rows(CZeroGrid, d, i)
    {
      ghost var rowStart := v.items;
      for j := 0 to d.cols
        invariant v.items == rowStart + Row(CZeroGrid, d, i, j)
      {
        v.PushBack(Instruction(LOAD, Wrap(Area(d.rows, d.common) + Area(d.common, d.cols) + RowMajor(i, d.cols, j)), 0, i, j));
        AppendAssoc(rowStart, Row(CZeroGrid, d, i, j), [Cell(CZeroGrid, d, i, j)]);
      }
      AppendAssoc(base, Rows(CZeroGrid, d, i), Row(CZeroGrid, d, i, d.cols as nat));
    }
  }

  // ---------------------------------------------------------------------
  // Multiply phase

  /** The six instructions of iteration (i, j, k): fetch A[i][k] and B[k][j],
      multiply, fetch C[i][j], add, write C[i][j] back. */
  function Block(d: Dims, i: u32, j: u32, k: u32): seq<Instruction> {
    var aAddr := Wrap(RowMajor(i, d.common, k));
    var bAddr := Wrap(Area(d.rows, d.common) + RowMajor(k, d.cols, j));
    var cAddr := Wrap(Area(d.rows, d.common) + Area(d.common, d.cols) + RowMajor(i, d.cols, j));
    [Instruction(MOVE, 0, aAddr, 0, 0),
     Instruction(MOVE, 1, bAddr, 0, 0),
     Instruction(MUL, 2, 0, 1, 0),
     Instruction(MOVE, 3, cAddr, 0, 0),
     Instruction(ADD, 3, 3, 2, 0),
     Instruction(MOVE, cAddr, 3, 0, 0)]
  }

  /** The first `n` iterations of the k loop. */
  function KLoop(d: Dims, i: u32, j: u32, n: nat): seq<Instruction>
    requires n <= d.common as nat
  {
    if n == 0 then [] else KLoop(d, i, j, n - 1) + Block(d, i, j, (n - 1) as u32)
  }

  /** The first `n` iterations of the j loop. */
  function JLoop(d: Dims, i: u32, n: nat): seq<Instruction>
    requires n <= d.cols as nat
  {
    if n == 0 then [] else JLoop(d, i, n - 1) + KLoop(d, i, (n - 1) as u32, d.common as nat)
  }

  /** The first `n` iterations of the i loop. */
  function ILoop(d: Dims, n: nat): seq<Instruction>
    requires n <= d.rows as nat
  {
    if n == 0 then [] else ILoop(d, n - 1) + JLoop(d, (n - 1) as u32, d.cols as nat)
  }

  /** Everything the multiply generator appends. */
  function ComputePhase(d: Dims): seq<Instruction> {
    ILoop(d, d.rows as nat)
  }

  lemma {:induction false} KLoopLength(d: Dims, i: u32, j: u32, n: nat)
    requires n <= d.common as nat
    ensures |KLoop(d, i, j, n)| == 6 * n
  {
    if n > 0 {
      KLoopLength(d, i, j, n - 1);
    }
  }

  lemma {:induction false} KLoopAt(d: Dims, i: u32, j: u32, n: nat, k: nat, t: nat)
    requires n <= d.common as nat && k < n && t < 6
    ensures |KLoop(d, i, j, n)| == 6 * n
    ensures KLoop(d, i, j, n)[6 * k + t] == Block(d, i, j, k as u32)[t]
  {
    var front := KLoop(d, i, j, n - 1);
    KLoopLength(d, i, j, n - 1);
    if k < n - 1 {
      KLoopAt(d, i, j, n - 1, k, t);
      PrefixIndex(front, Block(d, i, j, (n - 1) as u32), 6 * k + t);
    } else {
      ConcatIndex(front, Block(d, i, j, (n - 1) as u32), t);
    }
  }

  lemma {:induction false} JLoopLength(d: Dims, i: u32, n: nat)
    requires n <= d.cols as nat
    ensures |JLoop(d, i, n)| == 6 * Area(n, d.common as nat)
  {
    if n > 0 {
      JLoopLength(d, i, n - 1);
      KLoopLength(d, i, (n - 1) as u32, d.common as nat);
      AreaStep(n, d.common as nat);
    }
  }

  lemma {:induction false} JLoopAt(d: Dims, i: u32, n: nat, j: nat, q: nat)
    requires n <= d.cols as nat && j < n && q < 6 * d.common as nat
    ensures 6 * Area(j, d.common as nat) + q < |JLoop(d, i, n)|
    ensures |KLoop(d, i, j as u32, d.common as nat)| == 6 * d.common as nat
    ensures JLoop(d, i, n)[6 * Area(j, d.common as nat) + q] == KLoop(d, i, j as u32, d.common as nat)[q]
  {
    var m := d.common as nat;
    var front, last := JLoop(d, i, n - 1), KLoop(d, i, (n - 1) as u32, m);
    assert JLoop(d, i, n) == front + last;
    assert |front| == 6 * Area(n - 1, m) by { JLoopLength(d, i, n - 1); }
    assert |last| == 6 * m by { KLoopLength(d, i, (n - 1) as u32, m); }
    KLoopLength(d, i, j as u32, m);
    if j < n - 1 {
      assert 6 * Area(j, m) + q < |front| by { RowBefore(j, m, n - 1); }
      JLoopAt(d, i, n - 1, j, q);
      PrefixIndex(front, last, 6 * Area(j, m) + q);
    } else {
      assert 6 * Area(j, m) + q == |front| + q;
      ConcatIndex(front, last, q);
    }
  }

  lemma {:induction false} ILoopLength(d: Dims, n: nat)
    requires n <= d.rows as nat
    ensures |ILoop(d, n)| == 6 * Area(n, Area(d.cols as nat, d.common as nat))
  {
    if n > 0 {
      ILoopLength(d, n - 1);
      JLoopLength(d, (n - 1) as u32, d.cols as nat);
      AreaStep(n, Area(d.cols as nat, d.common as nat));
    }
  }

  lemma {:induction false} ILoopAt(d: Dims, n: nat, i: nat, q: nat)
    requires n <= d.rows as nat && i < n && q < 6 * Area(d.cols as nat, d.common as nat)
    ensures 6 * Area(i, Area(d.cols as nat, d.common as nat)) + q < |ILoop(d, n)|
    ensures |JLoop(d, i as u32, d.cols as nat)| == 6 * Area(d.cols as nat, d.common as nat)
    ensures ILoop(d, n)[6 * Area(i, Area(d.cols as nat, d.common as nat)) + q]
         == JLoop(d, i as u32, d.cols as nat)[q]
  {
    var c, w := d.cols as nat, Area(d.cols as nat, d.common as nat);
    var front, last := ILoop(d, n - 1), JLoop(d, (n - 1) as u32, c);
    assert ILoop(d, n) == front + last;
    assert |front| == 6 * Area(n - 1, w) by { ILoopLength(d, n - 1); }
    assert |last| == 6 * w by { JLoopLength(d, (n - 1) as u32, c); }
    JLoopLength(d, i as u32, c);
    if i < n - 1 {
      assert 6 * Area(i, w) + q < |front| by { RowBefore(i, w, n - 1); }
      ILoopAt(d, n - 1, i, q);
      PrefixIndex(front, last, 6 * Area(i, w) + q);
    } else {
      assert 6 * Area(i, w) + q == |front| + q;
      ConcatIndex(front, last, q);
    }
  }

  /** The multiply phase appends 6 * rows * cols * common instructions. */
  lemma ComputePhaseLength(d: Dims)
    ensures |ComputePhase(d)| == 6 * Area(d.rows, Area(d.cols, d.common))
  {
    ILoopLength(d, d.rows as nat);
  }

  /** The block of iteration (i, j, k) starts at 6 * ((i * cols + j) * common + k). */
  lemma ComputePhaseAt(d: Dims, i: u32, j: u32, k: u32, t: nat)
    requires i < d.rows && j < d.cols && k < d.common && t < 6
    ensures 6 * RowMajor(RowMajor(i, d.cols, j), d.common, k) + t < |ComputePhase(d)|
    ensures ComputePhase(d)[6 * RowMajor(RowMajor(i, d.cols, j), d.common, k) + t] == Block(d, i, j, k)[t]
  {
    var c, m := d.cols as nat, d.common as nat;
    var q := 6 * Area(j as nat, m) + (6 * k as nat + t);
    assert 6 * RowMajor(RowMajor(i, c, j), m, k) + t == 6 * Area(i as nat, Area(c, m)) + q by {
      RowMajorNested(i as nat, c, j as nat, m, k as nat);
    }
    assert q < 6 * Area(c, m) by {
      RowMajorBelow(j as nat, k as nat, m, c);
    }
    var p := 6 * RowMajor(RowMajor(i, c, j), m, k) + t;
    assert ComputePhase(d)[p] == JLoop(d, i, c)[q] by {
      ILoopAt(d, d.rows as nat, i as nat, q);
    }
    assert JLoop(d, i, c)[q] == KLoop(d, i, j, m)[6 * k as nat + t] by {
      JLoopAt(d, i, c, j as nat, 6 * k as nat + t);
    }
    KLoopAt(d, i, j, m, k as nat, t);
  }

  /** The multiply phase reads A[i][k], B[k][j] and C[i][j] from, and writes
      C[i][j] back to, exactly the addresses the load phase loaded them to. */
  lemma ComputeUsesLoadedAddresses(d: Dims, i: u32, j: u32, k: u32)
    requires i < d.rows && j < d.cols && k < d.common
    ensures var b := 6 * RowMajor(RowMajor(i, d.cols, j), d.common, k);
      var aPos := 3 + RowMajor(i, d.common, k);
      var bPos := 3 + Area(d.rows, d.common) + RowMajor(k, d.cols, j);
      var cPos := 3 + Area(d.rows, d.common) + Area(d.common, d.cols) + RowMajor(i, d.cols, j);
      && b + 5 < |ComputePhase(d)|
      && aPos < |LoadPhase(d)| && bPos < |LoadPhase(d)| && cPos < |LoadPhase(d)|
      && ComputePhase(d)[b].src1 == LoadPhase(d)[aPos].dest
      && ComputePhase(d)[b + 1].src1 == LoadPhase(d)[bPos].dest
      && ComputePhase(d)[b + 3].src1 == LoadPhase(d)[cPos].dest
      && ComputePhase(d)[b + 5].dest == LoadPhase(d)[cPos].dest
  {
    var b := 6 * RowMajor(RowMajor(i, d.cols, j), d.common, k);
    var block := Block(d, i, j, k);
    assert ComputePhase(d)[b] == block[0] by { ComputePhaseAt(d, i, j, k, 0); }
    assert ComputePhase(d)[b + 1] == block[1] by { ComputePhaseAt(d, i, j, k, 1); }
    assert ComputePhase(d)[b + 3] == block[3] by { ComputePhaseAt(d, i, j, k, 3); }
    assert b + 5 < |ComputePhase(d)| && ComputePhase(d)[b + 5] == block[5] by { ComputePhaseAt(d, i, j, k, 5); }
    LoadPhaseA(d, i, k);
    LoadPhaseB(d, k, j);
    LoadPhaseC(d, i, j);
  }

  method GenerateMatrixMultiplyInstructions(v: InstructionVector, d: Dims)
    modifies v
    ensures v.items == old(v.items) + ComputePhase(d)
  {
    ghost var start := v.items;
    for i := 0 to d.rows
      invariant v.items == start + ILoop(d, i)
    {
      ghost var iStart := v.items;
      for j := 0 to d.cols
        invariant v.items == iStart + JLoop(d, i, j)
      {
        MultiplyAccumulate(v, d, i, j);
        AppendAssoc(iStart, JLoop(d, i, j), KLoop(d, i, j, d.common as nat));
      }
      AppendAssoc(start, ILoop(d, i), JLoop(d, i, d.cols as nat));
    }
  }

  /** The k loop for one (i, j): C[i][j] += A[i][k] * B[k][j] for every k,
      through registers 0 to 3. */
  method MultiplyAccumulate(v: InstructionVector, d: Dims, i: u32, j: u32)
    modifies v
    ensures v.items == old(v.items) + KLoop(d, i, j, d.common as nat)
  {
    ghost var jStart := v.items;
    for k := 0 to d.common
      invariant v.items == jStart + KLoop(d, i, j, k)
    {
      ghost var kStart := v.items;
      var aAddr := Wrap(RowMajor(i, d.common, k));
      var bAddr := Wrap(Area(d.rows, d.common) + RowMajor(k, d.cols, j));
      var cAddr := Wrap(Area(d.rows, d.common) + Area(d.common, d.cols) + RowMajor(i, d.cols, j));
      v.PushBack(Instruction(MOVE, 0, aAddr, 0, 0));
      v.PushBack(Instruction(MOVE, 1, bAddr, 0, 0));
      v.PushBack(Instruction(MUL, 2, 0, 1, 0));
      v.PushBack(Instruction(MOVE, 3, cAddr, 0, 0));
      v.PushBack(Instruction(ADD, 3, 3, 2, 0));
      v.PushBack(Instruction(MOVE, cAddr, 3, 0, 0));
      SixPushes(kStart, Block(d, i, j, k));
      AppendAssoc(jStart, KLoop(d, i, j, k), Block(d, i, j, k));
    }
  }

  // ---------------------------------------------------------------------
  // Store phase

  /** Everything the store generator appends. It reads only rows and cols. */
  function StorePhase(d: Dims): seq<Instruction> {
    GridStream(StoreGrid, d)
  }

  /** The store of iteration (i, j): STORE(0, r*c + c*c + i*c + j, i, j), in row-major order. */
  lemma StorePhaseAt(d: Dims, i: u32, j: u32)
    requires i < d.rows && j < d.cols
    ensures |StorePhase(d)| == Area(d.rows, d.cols)
    ensures RowMajor(i, d.cols, j) < |StorePhase(d)|
    ensures StorePhase(d)[RowMajor(i, d.cols, j)]
         == Instruction(STORE, 0, Wrap(Area(d.rows, d.cols) + Area(d.cols, d.cols) + RowMajor(i, d.cols, j)), i, j)
  {
    GridLengths(d);
    GridAt(StoreGrid, d, i as nat, j as nat);
  }

  lemma {:induction false} StoreRowIgnoresCommon(d: Dims, e: Dims, x: u32, n: nat)
    requires d.rows == e.rows && d.cols == e.cols && n <= d.cols as nat
    ensures Row(StoreGrid, d, x, n) == Row(StoreGrid, e, x, n)
  {
    if n > 0 {
      StoreRowIgnoresCommon(d, e, x, n - 1);
    }
  }

  lemma {:induction false} StoreRowsIgnoreCommon(d: Dims, e: Dims, n: nat)
    requires d.rows == e.rows && d.cols == e.cols && n <= d.rows as nat
    ensures Rows(StoreGrid, d, n) == Rows(StoreGrid, e, n)
  {
    if n > 0 {
      StoreRowsIgnoreCommon(d, e, n - 1);
      StoreRowIgnoresCommon(d, e, (n - 1) as u32, d.cols as nat);
    }
  }

  /** The store phase does not depend on the common dimension. */
  lemma StorePhaseIgnoresCommon(d: Dims, common: u32)
    ensures StorePhase(d) == StorePhase(Dims(d.rows, d.cols, common))
  {
    StoreRowsIgnoreCommon(d, Dims(d.rows, d.cols, common), d.rows as nat);
  }

  /** r*c + c*c equals r*m + m*c exactly when m == c (for c > 0). */
  lemma StoreBaseIffSquare(r: nat, c: nat, m: nat)
    requires c > 0
    ensures Area(r, c) + Area(c, c) == Area(r, m) + Area(m, c) <==> m == c
  {
    assert (r * c + c * c) - (r * m + m * c) == (r + c) * (c - m);
    if m != c {
      assert (r + c) * (c - m) != 0;
    }
  }

  /** The store of C[i][j] reads the address the load phase zeroed C[i][j] at
      if and only if common == cols: the store phase computes the C base as
      rows*cols + cols*cols where the other two phases use rows*common +
      common*cols. */
  lemma StoreReadsLoadedCIffSquare(d: Dims, i: u32, j: u32)
    requires NoOverflow(d) && i < d.rows && j < d.cols
    ensures var cPos := 3 + Area(d.rows, d.common) + Area(d.common, d.cols) + RowMajor(i, d.cols, j);
      && RowMajor(i, d.cols, j) < |StorePhase(d)|
      && cPos < |LoadPhase(d)|
      && (StorePhase(d)[RowMajor(i, d.cols, j)].src1 == LoadPhase(d)[cPos].dest <==> d.common == d.cols)
  {
    StorePhaseAt(d, i, j);
    LoadPhaseC(d, i, j);
    RowMajorBelow(i as nat, j as nat, d.cols as nat, d.rows as nat);
    StoreBaseIffSquare(d.rows as nat, d.cols as nat, d.common as nat);
  }

  method GenerateStoreResultInstructions(v: InstructionVector, rows: u32, cols: u32)
    modifies v
    ensures v.items == old(v.items) + StorePhase(Dims(rows, cols, 0))
  {
    ghost var d := Dims(rows, cols, 0);
    ghost var start := v.items;
    for i := 0 to rows
      invariant v.items == start + Rows(StoreGrid, d, i)
    {
      ghost var rowStart := v.items;
      for j := 0 to cols
        invariant v.items == rowStart + Row(StoreGrid, d, i, j)
      {
        var cAddr := Wrap(Area(rows, cols) + Area(cols, cols) + RowMajor(i, cols, j));
        v.PushBack(Instruction(STORE, 0, cAddr, i, j));
        AppendAssoc(rowStart, Row(StoreGrid, d, i, j), [Cell(StoreGrid, d, i, j)]);
      }
      AppendAssoc(start, Rows(StoreGrid, d, i), Row(StoreGrid, d, i, cols as nat));
    }
  }

  // ---------------------------------------------------------------------
  // Whole functions and modules

  /** The stream compiled for one function. */
  function Program(d: Dims): seq<Instruction> {
    LoadPhase(d) + ComputePhase(d) + StorePhase(d)
  }

  lemma ProgramLength(d: Dims)
    ensures |Program(d)|
         == 3 + Area(d.rows, d.common) + Area(d.common, d.cols) + Area(d.rows, d.cols)
            + 6 * Area(d.rows, Area(d.cols, d.common))
            + Area(d.rows, d.cols)
  {
    LoadPhaseLength(d);
    ComputePhaseLength(d);
    GridLengths(d);
  }

  /** With the fixed 2 x 2 x 2 dimensions one function compiles to
      15 + 48 + 4 = 67 instructions. */
  lemma DefaultProgramLength()
    ensures |LoadPhase(DefaultDims)| == 15
    ensures |ComputePhase(DefaultDims)| == 48
    ensures |StorePhase(DefaultDims)| == 4
    ensures |Program(DefaultDims)| == 67
  {
    LoadPhaseLength(DefaultDims);
    ComputePhaseLength(DefaultDims);
    GridLengths(DefaultDims);
  }

  /** Compiles one function: load, multiply, store, all with dimensions `d`. */
  method ProcessMatrixMultiplyFunction(v: InstructionVector, d: Dims)
    modifies v
    ensures v.items == old(v.items) + Program(d)
  {
    GenerateMatrixLoadInstructions(v, d);
    GenerateMatrixMultiplyInstructions(v, d);
    GenerateStoreResultInstructions(v, d.rows, d.cols);
    StorePhaseIgnoresCommon(Dims(d.rows, d.cols, 0), d.common);
  }

  /** A function of the module, as far as the generator looks at it: a
      declaration (no body, skipped) or a definition. */
  datatype FunctionKind = Declaration | Definition

  /** `program` once for every definition among the first `n` functions. */
  function Repeat(functions: seq<FunctionKind>, n: nat, program: seq<Instruction>): seq<Instruction>
    requires n <= |functions|
  {
    if n == 0 then []
    else Repeat(functions, n - 1, program) + (if functions[n - 1].Declaration? then [] else program)
  }

  /** The number of definitions among the first `n` functions. */
  function Definitions(functions: seq<FunctionKind>, n: nat): nat
    requires n <= |functions|
  {
    if n == 0 then 0
    else Definitions(functions, n - 1) + (if functions[n - 1].Declaration? then 0 else 1)
  }

  /** The output for a module: one program per definition, in order. */
  function ModuleStream(functions: seq<FunctionKind>): seq<Instruction> {
    Repeat(functions, |functions|, Program(DefaultDims))
  }

  lemma {:induction false} RepeatLength(functions: seq<FunctionKind>, n: nat, program: seq<Instruction>)
    requires n <= |functions|
    ensures |Repeat(functions, n, program)| == Area(Definitions(functions, n), |program|)
  {
    if n > 0 {
      RepeatLength(functions, n - 1, program);
      if functions[n - 1].Definition? {
        AreaStep(Definitions(functions, n), |program|);
      }
    }
  }

  /** The `k`-th copy sits at k * |program|. */
  lemma {:induction false} RepeatBlocks(functions: seq<FunctionKind>, n: nat, program: seq<Instruction>, k: nat)
    requires n <= |functions| && k < Definitions(functions, n)
    ensures Area(k, |program|) + |program| <= |Repeat(functions, n, program)|
    ensures Repeat(functions, n, program)[Area(k, |program|)..Area(k, |program|) + |program|] == program
  {
    var front := Repeat(functions, n - 1, program);
    var lo, hi := Area(k, |program|), Area(k, |program|) + |program|;
    RepeatLength(functions, n - 1, program);
    if k < Definitions(functions, n - 1) {
      RepeatBlocks(functions, n - 1, program, k);
      var tail := if functions[n - 1].Declaration? then [] else program;
      SlicePrefix(front, tail, lo, hi);
    } else {
      assert k == Definitions(functions, n - 1) && functions[n - 1].Definition?;
      assert Repeat(functions, n, program)[lo..hi] == program;
    }
  }

  /** The module stream is the 67-instruction program once per defined function. */
  lemma ModuleStreamLength(functions: seq<FunctionKind>)
    ensures |ModuleStream(functions)| == 67 * Definitions(functions, |functions|)
  {
    DefaultProgramLength();
    RepeatLength(functions, |functions|, Program(DefaultDims));
  }

  /** The programs follow one another: the `k`-th block of 67 is the whole program. */
  lemma ModuleStreamBlocks(functions: seq<FunctionKind>, k: nat)
    requires k < Definitions(functions, |functions|)
    ensures 67 * (k + 1) <= |ModuleStream(functions)|
    ensures ModuleStream(functions)[67 * k..67 * (k + 1)] == Program(DefaultDims)
  {
    DefaultProgramLength();
    RepeatBlocks(functions, |functions|, Program(DefaultDims), k);
  }

  /** Runs the generator once for every function that has a body, skipping
      declarations, into one fresh vector. */
  method GeneratePIMInstructions(functions: seq<FunctionKind>) returns (out: seq<Instruction>)
    ensures out == ModuleStream(functions)
    ensures |out| == 67 * Definitions(functions, |functions|)
  {
    var v := new InstructionVector();
    for f := 0 to |functions|
      invariant v.items == Repeat(functions, f, Program(DefaultDims))
    {
      if functions[f].Declaration? {
        continue;
      }
      ProcessMatrixMultiplyFunction(v, DefaultDims);
    }
    out := v.items;
    ModuleStreamLength(functions);
  }
}
