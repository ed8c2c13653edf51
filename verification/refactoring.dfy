/** The instruction-stream analysis of the refactoring assistant: per-mnemonic
    counts, adjacent MUL-ADD and LOAD-STORE patterns and the optimisation
    suggestions drawn from them. */
module Refactoring {
  import opened InstructionSet
  import opened Instructions

  /** The name an instruction is counted and matched under: its mnemonic. */
  function OpName(i: Instruction): string {
    Mnemonic(i.opcode)
  }

  /** A named opcode is the only opcode with its mnemonic. */
  lemma MnemonicIs(op: Opcode, k: Opcode)
    requires k as int < OpcodeCount
    ensures Mnemonic(op) == Mnemonic(k) <==> op == k
  {
    OpcodeOfMnemonic(op);
    OpcodeOfMnemonic(k);
  }

  // ---------------------------------------------------------------------
  // Counting

  /** How many instructions of `s` are named `name`. */
  function Count(s: seq<Instruction>, name: string): (n: nat)
    ensures n <= |s|
  {
    if s == [] then 0
    else Count(s[..|s| - 1], name) + (if OpName(s[|s| - 1]) == name then 1 else 0)
  }

  /** How many instructions of `s` carry opcode `op`. */
  function CountOp(s: seq<Instruction>, op: Opcode): (n: nat)
    ensures n <= |s|
  {
    if s == [] then 0
    else CountOp(s[..|s| - 1], op) + (if s[|s| - 1].opcode == op then 1 else 0)
  }

  /** Counting by mnemonic is counting by opcode, since mnemonics are distinct. */
  lemma {:induction false} CountByOpcode(s: seq<Instruction>, k: Opcode)
    requires k as int < OpcodeCount
    ensures Count(s, Mnemonic(k)) == CountOp(s, k)
    decreases |s|
  {
    if s != [] {
      CountByOpcode(s[..|s| - 1], k);
      MnemonicIs(s[|s| - 1].opcode, k);
    }
  }

  /** `std::map::operator[]` on a missing key reads a value-initialised 0. */
  function Lookup(counts: map<string, nat>, name: string): nat {
    if name in counts then counts[name] else 0
  }

  /** The `instructionCounts[getOpName()]++` loop: one entry per name that occurs. */
  method CountNames(instrs: seq<Instruction>) returns (counts: map<string, nat>)
    ensures forall name :: Lookup(counts, name) == Count(instrs, name)
    ensures forall name :: name in counts <==> Count(instrs, name) > 0
  {
    counts := map[];
    for q := 0 to |instrs|
      invariant forall name :: Lookup(counts, name) == Count(instrs[..q], name)
      invariant forall name :: name in counts <==> Count(instrs[..q], name) > 0
    {
      var name := OpName(instrs[q]);
      assert instrs[..q + 1][..q] == instrs[..q];
      counts := counts[name := Lookup(counts, name) + 1];
    }
    assert instrs[..|instrs|] == instrs;
  }

  // ---------------------------------------------------------------------
  // Adjacent pairs

  /** The instruction at `i` is named `a` and the next one `b`. */
  predicate PairAt(s: seq<Instruction>, i: nat, a: string, b: string)
    requires i + 1 < |s|
  {
    OpName(s[i]) == a && OpName(s[i + 1]) == b
  }

  /** Some instruction named `a` is directly followed by one named `b`. */
  predicate HasPair(s: seq<Instruction>, a: string, b: string) {
    exists i: nat :: i + 1 < |s| && PairAt(s, i, a, b)
  }

  /** The pairs the scan `for i < n` collects: `s[i], s[i + 1]` for every
      such i where the two are named `a` then `b`, in scan order. */
  function Pairs(s: seq<Instruction>, a: string, b: string, n: nat): (r: seq<Instruction>)
    requires n < |s|
  {
    if n == 0 then []
    else Pairs(s, a, b, n - 1) + (if PairAt(s, n - 1, a, b) then [s[n - 1], s[n]] else [])
  }

  /** The collected list is a run of pairs: names alternate `a`, `b`, `a`, `b`, ... */
  lemma {:induction false} PairsShape(s: seq<Instruction>, a: string, b: string, n: nat)
    requires n < |s|
    ensures var r := Pairs(s, a, b, n);
      |r| % 2 == 0 && forall t :: 0 <= t < |r| ==> OpName(r[t]) == if t % 2 == 0 then a else b
  {
    if n > 0 {
      PairsShape(s, a, b, n - 1);
      var p := Pairs(s, a, b, n - 1);
      if PairAt(s, n - 1, a, b) {
        var r := p + [s[n - 1], s[n]];
        assert Pairs(s, a, b, n) == r;
        forall t | 0 <= t < |r|
          ensures OpName(r[t]) == if t % 2 == 0 then a else b
        {
          if t < |p| {
            assert r[t] == p[t];
          } else if t == |p| {
            assert r[t] == s[n - 1];
          } else {
            assert r[t] == s[n] && t % 2 == 1;
          }
        }
      } else {
        assert Pairs(s, a, b, n) == p + [];
      }
    }
  }

  /** A non-empty scan result points at a pair that starts before `n`. */
  lemma {:induction false} PairWitness(s: seq<Instruction>, a: string, b: string, n: nat) returns (i: nat)
    requires n < |s| && Pairs(s, a, b, n) != []
    ensures i < n && PairAt(s, i, a, b)
  {
    assert n > 0;
    if PairAt(s, n - 1, a, b) {
      i := n - 1;
    } else {
      assert Pairs(s, a, b, n) == Pairs(s, a, b, n - 1);
      i := PairWitness(s, a, b, n - 1);
    }
  }

  /** A pair that starts at `i` makes the scan up to any `n > i` non-empty. */
  lemma {:induction false} PairKept(s: seq<Instruction>, a: string, b: string, n: nat, i: nat)
    requires n < |s| && i < n && PairAt(s, i, a, b)
    ensures Pairs(s, a, b, n) != []
  {
    if i == n - 1 {
      assert |Pairs(s, a, b, n)| == |Pairs(s, a, b, n - 1)| + 2;
    } else {
      PairKept(s, a, b, n - 1, i);
      assert |Pairs(s, a, b, n)| >= |Pairs(s, a, b, n - 1)|;
    }
  }

  /** The scan finds something exactly when a pair starts before `n`. */
  lemma PairsFound(s: seq<Instruction>, a: string, b: string, n: nat)
    requires n < |s|
    ensures Pairs(s, a, b, n) != [] <==> exists i: nat :: i < n && PairAt(s, i, a, b)
  {
    if Pairs(s, a, b, n) != [] {
      var i := PairWitness(s, a, b, n);
    }
    forall i: nat | i < n && PairAt(s, i, a, b)
      ensures Pairs(s, a, b, n) != []
    {
      PairKept(s, a, b, n, i);
    }
  }

  /** Over the whole stream, the scan finds something exactly when a pair exists. */
  lemma PairsFoundIff(s: seq<Instruction>, a: string, b: string)
    requires |s| >= 1
    ensures Pairs(s, a, b, |s| - 1) != [] <==> HasPair(s, a, b)
  {
    PairsFound(s, a, b, |s| - 1);
  }

  /** One more step of the scan extends the collected list as `Pairs` does. */
  lemma ScanStep(s: seq<Instruction>, a: string, b: string, i: nat, found: seq<Instruction>)
    requires i + 1 < |s| && found == Pairs(s, a, b, i)
    ensures (if OpName(s[i]) == a && OpName(s[i + 1]) == b then found + [s[i], s[i + 1]] else found)
         == Pairs(s, a, b, i + 1)
  {
    if !PairAt(s, i, a, b) {
      assert Pairs(s, a, b, i + 1) == found + [];
    }
  }

  const MulAddKey := "Sequential MUL-ADD"
  const LoadStoreKey := "Redundant LOAD-STORE"

  /** The two scans; each key is present exactly when its list is non-empty.
      `instructions.size() - 1` wraps around on an empty vector, so the
      stream must be non-empty. */
  method FindInstructionPatterns(instrs: seq<Instruction>) returns (patterns: map<string, seq<Instruction>>)
    requires |instrs| >= 1
    ensures patterns.Keys <= {MulAddKey, LoadStoreKey}
    ensures MulAddKey in patterns <==> HasPair(instrs, "MUL", "ADD")
    ensures LoadStoreKey in patterns <==> HasPair(instrs, "LOAD", "STORE")
    ensures MulAddKey in patterns ==> patterns[MulAddKey] == Pairs(instrs, "MUL", "ADD", |instrs| - 1)
    ensures LoadStoreKey in patterns ==> patterns[LoadStoreKey] == Pairs(instrs, "LOAD", "STORE", |instrs| - 1)
  {
    patterns := map[];

    var mulAdd: seq<Instruction> := [];
    for i := 0 to |instrs| - 1
      invariant mulAdd == Pairs(instrs, "MUL", "ADD", i)
    {
      ScanStep(instrs, "MUL", "ADD", i, mulAdd);
      if OpName(instrs[i]) == "MUL" && OpName(instrs[i + 1]) == "ADD" {
        mulAdd := mulAdd + [instrs[i], instrs[i + 1]];
      }
    }
    if mulAdd != [] {
      patterns := patterns[MulAddKey := mulAdd];
    }
    assert mulAdd != [] <==> HasPair(instrs, "MUL", "ADD") by {
      PairsFoundIff(instrs, "MUL", "ADD");
    }

    var loadStore: seq<Instruction> := [];
    for i := 0 to |instrs| - 1
      invariant loadStore == Pairs(instrs, "LOAD", "STORE", i)
    {
      ScanStep(instrs, "LOAD", "STORE", i, loadStore);
      if OpName(instrs[i]) == "LOAD" && i + 1 < |instrs| && OpName(instrs[i + 1]) == "STORE" {
        loadStore := loadStore + [instrs[i], instrs[i + 1]];
      }
    }
    assert loadStore != [] <==> HasPair(instrs, "LOAD", "STORE") by {
      PairsFoundIff(instrs, "LOAD", "STORE");
    }
    if loadStore != [] {
      patterns := patterns[LoadStoreKey := loadStore];
    }
  }

  // ---------------------------------------------------------------------
  // Suggestions

  /** The keys of the suggestion map; the message texts are not modelled. */
  datatype Suggestion = ReduceMoves | ImproveComputationIntensity | ParallelizeOperations

  /** When each suggestion is made, with C++ integer division. */
  predicate SuggestionsFor(instrs: seq<Instruction>, suggestions: set<Suggestion>) {
    && (ReduceMoves in suggestions <==> Count(instrs, "MOVE") > |instrs| / 3)
    && (ImproveComputationIntensity in suggestions <==>
          Count(instrs, "ADD") + Count(instrs, "MUL") < (Count(instrs, "LOAD") + Count(instrs, "STORE")) / 2)
    && (ParallelizeOperations in suggestions <==> HasPair(instrs, "MUL", "ADD"))
  }

  /** Counts the names, finds the patterns and applies the three rules; the
      source text is not consulted. */
  method SuggestInstructionOptimizations(instrs: seq<Instruction>, sourceCode: string)
    returns (suggestions: set<Suggestion>)
    requires |instrs| >= 1
    ensures SuggestionsFor(instrs, suggestions)
  {
    var counts := CountNames(instrs);
    var patterns := FindInstructionPatterns(instrs);

    var moves := Lookup(counts, "MOVE");
    var computeOps := Lookup(counts, "ADD") + Lookup(counts, "MUL");
    var memoryOps := Lookup(counts, "LOAD") + Lookup(counts, "STORE");
    assert moves == Count(instrs, "MOVE");
    assert computeOps == Count(instrs, "ADD") + Count(instrs, "MUL");
    assert memoryOps == Count(instrs, "LOAD") + Count(instrs, "STORE");

    suggestions := {};
    if moves > |instrs| / 3 {
      suggestions := suggestions + {ReduceMoves};
    }
    if computeOps < memoryOps / 2 {
      suggestions := suggestions + {ImproveComputationIntensity};
    }
    if MulAddKey in patterns {
      suggestions := suggestions + {ParallelizeOperations};
    }
  }

  // ---------------------------------------------------------------------
  // Counts on concatenated and uniform streams

  lemma {:induction false} CountOpConcat(s: seq<Instruction>, t: seq<Instruction>, op: Opcode)
    ensures CountOp(s + t, op) == CountOp(s, op) + CountOp(t, op)
    decreases |t|
  {
    if t == [] {
      assert s + t == s;
    } else {
      var front := t[..|t| - 1];
      assert (s + t)[..|s + t| - 1] == s + front;
      assert (s + t)[|s + t| - 1] == t[|t| - 1];
      CountOpConcat(s, front, op);
    }
  }

  /** Every instruction of `s` carries opcode `op0`. */
  predicate AllOp(s: seq<Instruction>, op0: Opcode) {
    forall k :: 0 <= k < |s| ==> s[k].opcode == op0
  }

  lemma {:induction false} CountUniform(s: seq<Instruction>, op0: Opcode, op: Opcode)
    requires AllOp(s, op0)
    ensures CountOp(s, op) == if op == op0 then |s| else 0
    decreases |s|
  {
    if s != [] {
      CountUniform(s[..|s| - 1], op0, op);
    }
  }

  lemma CountOpPrefix(s: seq<Instruction>, n: nat, op: Opcode)
    requires 0 < n <= |s|
    ensures CountOp(s[..n], op) == CountOp(s[..n - 1], op) + (if s[n - 1].opcode == op then 1 else 0)
  {
    assert s[..n][..n - 1] == s[..n - 1];
  }

  // ---------------------------------------------------------------------
  // Pairs in concatenated streams

  /** Joining two streams adds a pair only across the seam. */
  lemma ConcatPairs(s: seq<Instruction>, t: seq<Instruction>, a: string, b: string)
    ensures HasPair(s + t, a, b) <==>
      || HasPair(s, a, b) || HasPair(t, a, b)
      || (s != [] && t != [] && OpName(s[|s| - 1]) == a && OpName(t[0]) == b)
  {
    if HasPair(s + t, a, b) {
      PairCameFrom(s, t, a, b);
    }
    PairsKept(s, t, a, b);
    if s != [] && t != [] && OpName(s[|s| - 1]) == a && OpName(t[0]) == b {
      assert PairAt(s + t, |s| - 1, a, b);
    }
  }

  lemma PairCameFrom(s: seq<Instruction>, t: seq<Instruction>, a: string, b: string)
    requires HasPair(s + t, a, b)
    ensures || HasPair(s, a, b) || HasPair(t, a, b)
            || (s != [] && t != [] && OpName(s[|s| - 1]) == a && OpName(t[0]) == b)
  {
    var st := s + t;
    var i: nat :| i + 1 < |st| && PairAt(st, i, a, b);
    if i + 1 < |s| {
      assert st[i] == s[i] && st[i + 1] == s[i + 1];
      assert PairAt(s, i, a, b);
    } else if i >= |s| {
      var j: nat := i - |s|;
      assert st[i] == t[j] && st[i + 1] == t[j + 1];
      assert PairAt(t, j, a, b);
    } else {
      assert st[i] == s[|s| - 1] && st[i + 1] == t[0];
    }
  }

  lemma PairsKept(s: seq<Instruction>, t: seq<Instruction>, a: string, b: string)
    ensures HasPair(s, a, b) || HasPair(t, a, b) ==> HasPair(s + t, a, b)
  {
    var st := s + t;
    if HasPair(s, a, b) {
      var i: nat :| i + 1 < |s| && PairAt(s, i, a, b);
      assert st[i] == s[i] && st[i + 1] == s[i + 1];
      assert PairAt(st, i, a, b);
    }
    if HasPair(t, a, b) {
      var j: nat :| j + 1 < |t| && PairAt(t, j, a, b);
      assert st[|s| + j] == t[j] && st[|s| + j + 1] == t[j + 1];
      assert PairAt(st, |s| + j, a, b);
    }
  }

  /** A stream with no instruction named `a`, or none named `b`, has no `a`-`b` pair. */
  lemma NoPairWithout(s: seq<Instruction>, a: string, b: string)
    requires (forall k :: 0 <= k < |s| ==> OpName(s[k]) != a) || (forall k :: 0 <= k < |s| ==> OpName(s[k]) != b)
    ensures !HasPair(s, a, b)
  {
  }
}
