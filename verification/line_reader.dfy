/** A reader for the text form of an instruction. Reading back a rendered line
    recovers the mnemonic, every operand in full (untruncated) and the word,
    which shows that the text form loses nothing the renderer prints. */
module LineReader {
  import opened InstructionSet
  import opened Text
  import opened Wrappers
  import opened Instructions

  /** What a line shows: the mnemonic, the plain operand list, the bracketed
      list (LOAD/STORE row and column) and the value of the hexadecimal word. */
  datatype Line = Line(mnemonic: string, operands: seq<nat>, bracketed: seq<nat>, word: nat)

  /** The numbers the text form of `i` shows, by opcode class. */
  function ShownOperands(i: Instruction): (seq<nat>, seq<nat>)
  {
    var op := i.opcode;
    if op == NOP then ([], [])
    else if op == CONFIG || op == JUMPZ || op == JUMPNZ then ([i.dest, i.src1], [])
    else if op == LOAD || op == STORE then
      ([i.dest, i.src1], if i.src2 != 0 || i.imm != 0 then [i.src2, i.imm] else [])
    else if op == NOT || op == JUMP then ([i.dest], [])
    else ([i.dest, i.src1, i.src2] + (if i.imm != 0 then [i.imm] else []), [])
  }

  /** Numbers in decimal, separated by ", ". */
  function CommaList(ns: seq<nat>): string
    requires |ns| >= 1
    decreases |ns|
  {
    if |ns| == 1 then Decimal(ns[0]) else Decimal(ns[0]) + ", " + CommaList(ns[1..])
  }

  /** An operand list as the renderer lays it out. */
  function OperandText(ns: seq<nat>, bs: seq<nat>): string {
    if ns == [] then ""
    else " " + CommaList(ns) + (if bs == [] then "" else " [" + CommaList(bs) + "]")
  }

  lemma CommaListOfTwo(a: nat, b: nat)
    ensures CommaList([a, b]) == Decimal(a) + ", " + Decimal(b)
  {
    assert [a, b][1..] == [b];
  }

  lemma CommaListOfThree(a: nat, b: nat, c: nat)
    ensures CommaList([a, b, c]) == Decimal(a) + ", " + Decimal(b) + ", " + Decimal(c)
  {
    assert [a, b, c][1..] == [b, c];
    CommaListOfTwo(b, c);
  }

  lemma CommaListOfFour(a: nat, b: nat, c: nat, d: nat)
    ensures CommaList([a, b, c, d]) == Decimal(a) + ", " + Decimal(b) + ", " + Decimal(c) + ", " + Decimal(d)
  {
    assert [a, b, c, d][1..] == [b, c, d];
    CommaListOfThree(b, c, d);
  }

  /** The renderer's operand text is the list `ShownOperands` gives, laid out. */
  lemma OperandsAsList(i: Instruction)
    ensures Operands(i) == OperandText(ShownOperands(i).0, ShownOperands(i).1)
  {
    var op := i.opcode;
    if op == NOP {
    } else if op == CONFIG || op == JUMPZ || op == JUMPNZ {
      TwoOperandsAsList(i);
    } else if op == LOAD || op == STORE {
      MemoryOperandsAsList(i);
    } else if op == NOT || op == JUMP {
      assert Operands(i) == " " + Decimal(i.dest) + "";
    } else {
      ThreeOperandsAsList(i);
    }
  }

  lemma TwoOperandsAsList(i: Instruction)
    requires i.opcode == CONFIG || i.opcode == JUMPZ || i.opcode == JUMPNZ
    ensures Operands(i) == OperandText(ShownOperands(i).0, ShownOperands(i).1)
  {
    var d, s1 := Decimal(i.dest), Decimal(i.src1);
    CommaListOfTwo(i.dest, i.src1);
    assert Operands(i) == " " + d + ", " + s1;
    assert " " + d + ", " + s1 == " " + (d + ", " + s1) + "";
  }

  lemma MemoryOperandsAsList(i: Instruction)
    requires i.opcode == LOAD || i.opcode == STORE
    ensures Operands(i) == OperandText(ShownOperands(i).0, ShownOperands(i).1)
  {
    var d, s1, s2, imm := Decimal(i.dest), Decimal(i.src1), Decimal(i.src2), Decimal(i.imm);
    CommaListOfTwo(i.dest, i.src1);
    if i.src2 != 0 || i.imm != 0 {
      assert ShownOperands(i) == ([i.dest, i.src1], [i.src2, i.imm]);
      assert Operands(i) == " " + d + ", " + s1 + (" [" + s2 + ", " + imm + "]");
      CommaListOfTwo(i.src2, i.imm);
      JoinBracketed(d, s1, s2, imm);
    } else {
      assert ShownOperands(i) == ([i.dest, i.src1], []);
      assert Operands(i) == " " + d + ", " + s1 + "";
      JoinPair(d, s1);
    }
  }

  lemma JoinBracketed(a: string, b: string, c: string, e: string)
    ensures " " + a + ", " + b + (" [" + c + ", " + e + "]") == " " + (a + ", " + b) + (" [" + (c + ", " + e) + "]")
  {
  }

  lemma JoinPair(a: string, b: string)
    ensures " " + a + ", " + b + "" == " " + (a + ", " + b) + ""
  {
  }

  lemma ThreeOperandsAsList(i: Instruction)
    requires i.opcode !in {NOP, CONFIG, LOAD, STORE, NOT, JUMP, JUMPZ, JUMPNZ}
    ensures Operands(i) == OperandText(ShownOperands(i).0, ShownOperands(i).1)
  {
    var d, s1, s2, imm := Decimal(i.dest), Decimal(i.src1), Decimal(i.src2), Decimal(i.imm);
    if i.imm != 0 {
      assert [i.dest, i.src1, i.src2] + [i.imm] == [i.dest, i.src1, i.src2, i.imm];
      assert ShownOperands(i) == ([i.dest, i.src1, i.src2, i.imm], []);
      assert Operands(i) == " " + d + ", " + s1 + ", " + s2 + (", " + imm);
      assert OperandText([i.dest, i.src1, i.src2, i.imm], []) == " " + (d + ", " + s1 + ", " + s2 + ", " + imm) + "" by {
        CommaListOfFour(i.dest, i.src1, i.src2, i.imm);
      }
      JoinFour(d, s1, s2, imm);
    } else {
      assert [i.dest, i.src1, i.src2] + [] == [i.dest, i.src1, i.src2];
      assert ShownOperands(i) == ([i.dest, i.src1, i.src2], []);
      assert Operands(i) == " " + d + ", " + s1 + ", " + s2 + "";
      assert OperandText([i.dest, i.src1, i.src2], []) == " " + (d + ", " + s1 + ", " + s2) + "" by {
        CommaListOfThree(i.dest, i.src1, i.src2);
      }
      JoinThree(d, s1, s2);
    }
  }

  lemma JoinFour(a: string, b: string, c: string, e: string)
    ensures " " + a + ", " + b + ", " + c + (", " + e) == " " + (a + ", " + b + ", " + c + ", " + e) + ""
  {
  }

  lemma JoinThree(a: string, b: string, c: string)
    ensures " " + a + ", " + b + ", " + c + "" == " " + (a + ", " + b + ", " + c) + ""
  {
  }

  /** Reads numbers separated by ", " at the start of `s`. */
  function ReadList(s: string): (r: Option<(seq<nat>, string)>)
    ensures r.Some? ==> |r.value.1| < |s|
    decreases |s|
  {
    match ReadNumber(s)
    case None => None
    case Some((n, rest)) =>
      if |rest| >= 2 && rest[..2] == ", " then
        match ReadList(rest[2..])
        case None => None
        case Some((ns, after)) => Some(([n] + ns, after))
      else
        Some(([n], rest))
  }

  /** A single number followed by text that does not continue the list. */
  lemma ReadSingle(ns: seq<nat>, rest: string)
    requires |ns| == 1
    requires rest == [] || (!IsDigit(rest[0]) && rest[0] != ',')
    ensures ReadList(CommaList(ns) + rest) == Some((ns, rest))
  {
    assert CommaList(ns) + rest == Decimal(ns[0]) + rest;
    ReadDecimal(ns[0], rest);
    assert |rest| >= 2 ==> rest[..2][0] == rest[0];
    assert [ns[0]] == ns;
  }

  /** The first number of a longer list is followed by ", " and the rest of the list. */
  lemma ReadListHead(ns: seq<nat>, rest: string)
    requires |ns| >= 2
    ensures ReadNumber(CommaList(ns) + rest) == Some((ns[0], ", " + (CommaList(ns[1..]) + rest)))
  {
    CommaListCons(ns, rest);
    ReadDecimal(ns[0], ", " + (CommaList(ns[1..]) + rest));
  }

  lemma CommaListCons(ns: seq<nat>, rest: string)
    requires |ns| >= 2
    ensures CommaList(ns) + rest == Decimal(ns[0]) + (", " + (CommaList(ns[1..]) + rest))
  {
    JoinAssoc(Decimal(ns[0]), ", ", CommaList(ns[1..]), rest);
  }

  lemma JoinAssoc(a: string, b: string, c: string, r: string)
    ensures a + b + c + r == a + (b + (c + r))
  {
  }

  /** A number, ", " and a readable list read as one list. */
  lemma ReadListCons(s: string, n: nat, tail: string, ns: seq<nat>, after: string)
    requires ReadNumber(s) == Some((n, tail))
    requires |tail| >= 2 && tail[..2] == ", " && ReadList(tail[2..]) == Some((ns, after))
    ensures ReadList(s) == Some(([n] + ns, after))
  {
  }

  lemma {:induction false} ReadCommaList(ns: seq<nat>, rest: string)
    requires |ns| >= 1
    requires rest == [] || (!IsDigit(rest[0]) && rest[0] != ',')
    ensures ReadList(CommaList(ns) + rest) == Some((ns, rest))
    decreases |ns|
  {
    if |ns| == 1 {
      ReadSingle(ns, rest);
    } else {
      var more := CommaList(ns[1..]) + rest;
      ReadListHead(ns, rest);
      SeparatorSlices(more);
      ReadCommaList(ns[1..], rest);
      ReadListCons(CommaList(ns) + rest, ns[0], ", " + more, ns[1..], rest);
      HeadTail(ns);
    }
  }

  lemma SeparatorSlices(more: string)
    ensures |", " + more| >= 2 && (", " + more)[..2] == ", " && (", " + more)[2..] == more
  {
  }

  lemma HeadTail(ns: seq<nat>)
    requires |ns| >= 1
    ensures [ns[0]] + ns[1..] == ns
  {
  }

  /** Reads an operand list: nothing, or a space and a list, optionally
      followed by a bracketed list that ends the text. */
  function ReadOperands(s: string): Option<(seq<nat>, seq<nat>)> {
    if s == [] then Some(([], []))
    else if s[0] != ' ' then None
    else
      match ReadList(s[1..])
      case None => None
      case Some((ns, rest)) =>
        if rest == [] then Some((ns, []))
        else if |rest| >= 2 && rest[..2] == " [" then
          match ReadList(rest[2..])
          case Some((bs, after)) => if after == "]" then Some((ns, bs)) else None
          case None => None
        else None
  }

  lemma ReadOperandText(ns: seq<nat>, bs: seq<nat>)
    requires ns == [] ==> bs == []
    ensures ReadOperands(OperandText(ns, bs)) == Some((ns, bs))
  {
    if ns != [] {
      var s := OperandText(ns, bs);
      if bs == [] {
        assert s == " " + (CommaList(ns) + []);
        ReadCommaList(ns, []);
        assert ReadList(s[1..]) == Some((ns, []));
      } else {
        ReadBracketed(ns, bs);
      }
    }
  }

  lemma ReadBracketed(ns: seq<nat>, bs: seq<nat>)
    requires ns != [] && bs != []
    ensures ReadOperands(OperandText(ns, bs)) == Some((ns, bs))
  {
    var s := OperandText(ns, bs);
    var bracket := " [" + (CommaList(bs) + "]");
    assert s == " " + (CommaList(ns) + bracket);
    ReadCommaList(ns, bracket);
    assert ReadList(s[1..]) == Some((ns, bracket));
    assert bracket[..2] == " [";
    assert bracket[2..] == CommaList(bs) + "]";
    ReadCommaList(bs, "]");
    assert ReadList(bracket[2..]) == Some((bs, "]"));
  }

  /** The longest prefix of `s` made of upper-case letters. */
  function UpperPrefix(s: string): (p: string)
    ensures |p| <= |s| && p == s[..|p|]
    decreases |s|
  {
    if s != [] && IsUpper(s[0]) then [s[0]] + UpperPrefix(s[1..]) else []
  }

  lemma {:induction false} UpperPrefixOfWord(name: string, rest: string)
    requires AllUpper(name)
    requires rest == [] || !IsUpper(rest[0])
    ensures UpperPrefix(name + rest) == name
    decreases |name|
  {
    if name != [] {
      assert (name + rest)[1..] == name[1..] + rest;
      UpperPrefixOfWord(name[1..], rest);
    }
  }

  /** Reads a whole line: mnemonic, operands, " ; 0x" and eight hexadecimal digits. */
  function ReadLine(s: string): Option<Line> {
    if |s| < 13 then None
    else
      var head, hex := s[..|s| - 13], s[|s| - 8..];
      if s[|s| - 13..|s| - 8] != " ; 0x" || !AllLowerHex(hex) then None
      else
        var name := UpperPrefix(head);
        match ReadOperands(head[|name|..])
        case None => None
        case Some((ns, bs)) => Some(Line(name, ns, bs, HexValue(hex)))
  }

  /** Round trip of the text form: the line read back shows the mnemonic, the
      operands `ShownOperands` lists, in full, and the binary word. */
  lemma ReadToString(i: Instruction)
    ensures ReadLine(ToString(i))
         == Some(Line(Mnemonic(i.opcode), ShownOperands(i).0, ShownOperands(i).1, ToBinary(i) as int))
  {
    var hex := Hex8(ToBinary(i));
    ToStringParts(i);
    OperandsAsList(i);
    var (ns, bs) := ShownOperands(i);
    assert ns == [] ==> bs == [];
    ReadJoined(Mnemonic(i.opcode), ns, bs, hex);
  }

  /** Reading a line assembled from a mnemonic, a laid-out operand list and
      eight hexadecimal digits gives back each part. */
  lemma ReadJoined(name: string, ns: seq<nat>, bs: seq<nat>, hex: string)
    requires AllUpper(name) && |hex| == 8 && AllLowerHex(hex)
    requires ns == [] ==> bs == []
    requires forall k :: 0 <= k < |OperandText(ns, bs)| ==> OperandText(ns, bs)[k] != ';'
    ensures ReadLine(name + OperandText(ns, bs) + " ; 0x" + hex) == Some(Line(name, ns, bs, HexValue(hex)))
  {
    var ops := OperandText(ns, bs);
    var s := name + ops + " ; 0x" + hex;
    LineShape(name, ops, hex);
    assert ops == [] || ops[0] == ' ';
    UpperPrefixOfWord(name, ops);
    ReadOperandText(ns, bs);
    ReadLineOf(s, name, ops, hex, ns, bs);
  }

  /** A line whose parts read back one by one reads back as a whole. */
  lemma ReadLineOf(s: string, name: string, ops: string, hex: string, ns: seq<nat>, bs: seq<nat>)
    requires |s| >= 13 && s[..|s| - 13] == name + ops
    requires s[|s| - 13..|s| - 8] == " ; 0x" && s[|s| - 8..] == hex && AllLowerHex(hex)
    requires UpperPrefix(name + ops) == name && ReadOperands(ops) == Some((ns, bs))
    ensures ReadLine(s) == Some(Line(name, ns, bs, HexValue(hex)))
  {
    assert (name + ops)[|name|..] == ops;
  }

  /** The bracketed [row, col] part appears exactly for a LOAD or STORE whose
      src2 or imm is non-zero. */
  lemma BracketShownExactly(i: Instruction)
    ensures ShownOperands(i).1 != [] <==> (i.opcode == LOAD || i.opcode == STORE) && (i.src2 != 0 || i.imm != 0)
  {
  }

  /** Number of plain operands shown, by opcode class; an arithmetic or other
      three-operand instruction shows a fourth, its imm, exactly when imm is non-zero. */
  lemma ShownOperandCount(i: Instruction)
    ensures i.opcode == NOP ==> |ShownOperands(i).0| == 0
    ensures i.opcode == NOT || i.opcode == JUMP ==> |ShownOperands(i).0| == 1
    ensures i.opcode in {CONFIG, JUMPZ, JUMPNZ, LOAD, STORE} ==> |ShownOperands(i).0| == 2
    ensures i.opcode !in {NOP, CONFIG, LOAD, STORE, NOT, JUMP, JUMPZ, JUMPNZ} ==>
              (|ShownOperands(i).0| == 4 <==> i.imm != 0) && |ShownOperands(i).0| >= 3
  {
  }

  /** The three CONFIG lines the backend emits first for 2x2 matrices. */
  lemma ConfigLines()
    ensures ToString(Instruction(CONFIG, 0, 4, 0, 0)) == "CONFIG 0, 4 ; 0x44001000"
    ensures ToString(Instruction(CONFIG, 1, 4, 0, 0)) == "CONFIG 1, 4 ; 0x44041000"
    ensures ToString(Instruction(CONFIG, 2, 4, 0, 0)) == "CONFIG 2, 4 ; 0x44081000"
  {
    ConfigLineAt(0);
    ConfigLineAt(1);
    ConfigLineAt(2);
    ConfigTexts();
  }

  /** The three CONFIG lines spelled out. */
  lemma ConfigTexts()
    ensures "CONFIG " + [DigitChar(0)] + ", 4 ; 0x" + ("440" + [HexChar(4 * 0)] + "1000") == "CONFIG 0, 4 ; 0x44001000"
    ensures "CONFIG " + [DigitChar(1)] + ", 4 ; 0x" + ("440" + [HexChar(4 * 1)] + "1000") == "CONFIG 1, 4 ; 0x44041000"
    ensures "CONFIG " + [DigitChar(2)] + ", 4 ; 0x" + ("440" + [HexChar(4 * 2)] + "1000") == "CONFIG 2, 4 ; 0x44081000"
  {
  }

  /** The CONFIG line for parameter `d` < 3 and value 4: the parameter sits in
      bits 18-19 of the word, so it shows as the fourth hex digit, 4 * d. */
  lemma ConfigLineAt(d: u32)
    requires d < 3
    ensures ToString(Instruction(CONFIG, d, 4, 0, 0))
         == "CONFIG " + [DigitChar(d)] + ", 4 ; 0x" + ("440" + [HexChar(4 * d)] + "1000")
  {
    ConfigDigits(d);
    ConfigLineOf(d, [DigitChar(d)], "440" + [HexChar(4 * d)] + "1000");
  }

  /** The decimal digit of the parameter and the hex digits of the word. */
  lemma ConfigDigits(d: u32)
    requires d < 3
    ensures Decimal(d) == [DigitChar(d)]
    ensures Hex8(ToBinary(Instruction(CONFIG, d, 4, 0, 0))) == "440" + [HexChar(4 * d)] + "1000"
  {
    ConfigWord(d);
    ConfigHex(d);
  }

  /** A CONFIG line with parameter `d` and value 4, given the digits of `d`
      and of its word. */
  lemma ConfigLineOf(d: u32, ds: string, hex: string)
    requires Decimal(d) == ds && Hex8(ToBinary(Instruction(CONFIG, d, 4, 0, 0))) == hex
    ensures ToString(Instruction(CONFIG, d, 4, 0, 0)) == "CONFIG " + ds + ", 4 ; 0x" + hex
  {
    var i := Instruction(CONFIG, d, 4, 0, 0);
    ToStringParts(i);
    ConfigOperands(d);
    JoinConfigLine(Decimal(d), hex);
  }

  lemma ConfigOperands(d: u32)
    ensures Mnemonic(CONFIG) == "CONFIG"
    ensures Operands(Instruction(CONFIG, d, 4, 0, 0)) == " " + Decimal(d) + ", 4"
  {
    assert Decimal(4) == "4";
  }

  lemma JoinConfigLine(ds: string, hex: string)
    ensures "CONFIG" + (" " + ds + ", 4") + " ; 0x" + hex == "CONFIG " + ds + ", 4 ; 0x" + hex
  {
  }

  /** The CONFIG word: opcode 17 with src1 4, plus the parameter shifted by 18. */
  lemma ConfigWord(d: u32)
    requires d < 3
    ensures ToBinary(Instruction(CONFIG, d, 4, 0, 0)) as int == 0x44001000 + 0x40000 * d
  {
    if d == 0 {
    } else if d == 1 {
    } else {
    }
  }

  lemma ConfigHex(d: nat)
    requires d < 3
    ensures HexPadded(0x44001000 + 0x40000 * d, 8) == "440" + [HexChar(4 * d)] + "1000"
  {
    var v := 0x44001000 + 0x40000 * d;
    assert v / 16 == 0x4400100 + 0x4000 * d && v % 16 == 0;
    assert (v / 16) / 16 == 0x440010 + 0x400 * d && (v / 16) % 16 == 0;
    assert v / 16 / 16 / 16 == 0x44001 + 0x40 * d && v / 16 / 16 % 16 == 0;
    assert v / 16 / 16 / 16 / 16 == 0x4400 + 4 * d && v / 16 / 16 / 16 % 16 == 1;
    assert v / 16 / 16 / 16 / 16 / 16 == 0x440 && v / 16 / 16 / 16 / 16 % 16 == 4 * d;
    assert HexPadded(0x440, 3) == "440";
  }

  /** Operands print in full while the word keeps only their low bits: a MOVE to
      address 300 prints 300 but encodes dest 44. */
  lemma WideOperandPrintsInFull()
    ensures ReadLine(ToString(Instruction(MOVE, 300, 3, 0, 0)))
         == Some(Line("MOVE", [300, 3, 0], [], ToBinary(Instruction(MOVE, 300, 3, 0, 0)) as int))
    ensures DecodeDest(ToBinary(Instruction(MOVE, 300, 3, 0, 0))) == 44
  {
    var i := Instruction(MOVE, 300, 3, 0, 0);
    ReadToString(i);
    MoveShown(i);
    WideDestEncodes44();
  }

  lemma MoveShown(i: Instruction)
    requires i.opcode == MOVE && i.imm == 0
    ensures Mnemonic(i.opcode) == "MOVE"
    ensures ShownOperands(i) == ([i.dest, i.src1, i.src2], [])
  {
    assert [i.dest, i.src1, i.src2] + [] == [i.dest, i.src1, i.src2];
  }

  lemma WideDestEncodes44()
    ensures DecodeDest(ToBinary(Instruction(MOVE, 300, 3, 0, 0))) == 44
  {
    assert ToBinary(Instruction(MOVE, 300, 3, 0, 0)) == Encode(MOVE, 300, 3, 0, 0);
    EncodeTruncates(MOVE, 300, 3, 0, 0);
  }
}
