/** Encoding of x64 memory operands and near branches, against a decoder written from the Intel
    Software Developer's Manual, volume 2A, sections 2.1.5 and 2.2.1. Bit fields that do not
    overlap are combined by addition. */
module X64Encoding {
  import opened Basics

  type byte = x: int | 0 <= x < 256

  const INT_MIN := -0x8000_0000
  const INT_MAX := 0x7FFF_FFFF

  const ESP := 4
  const EBP := 5
  const R11 := 11
  const SIB := 4
  const ADDR := 5

  // ---- Little-endian numbers ----

  function Le8(x: int): seq<byte> {
    [x % 0x100]
  }

  function Le32(x: int): (r: seq<byte>)
    ensures |r| == 4
  {
    var x1 := x / 0x100;
    var x2 := x1 / 0x100;
    [x % 0x100, x1 % 0x100, x2 % 0x100, x2 / 0x100 % 0x100]
  }

  function Le64(x: nat): (r: seq<byte>)
    ensures |r| == 8
  {
    Le32(x % 0x1_0000_0000) + Le32(x / 0x1_0000_0000)
  }

  function Signed8(b: byte): int {
    if b < 0x80 then b else b - 0x100
  }

  function Unsigned32(b: seq<byte>): nat
    requires |b| >= 4
  {
    b[0] as int + 0x100 * (b[1] as int) + 0x1_0000 * (b[2] as int) + 0x100_0000 * (b[3] as int)
  }

  function Signed32(b: seq<byte>): int
    requires |b| >= 4
  {
    if Unsigned32(b) < 0x8000_0000 then Unsigned32(b) else Unsigned32(b) - 0x1_0000_0000
  }

  function Unsigned64(b: seq<byte>): nat
    requires |b| >= 8
  {
    Unsigned32(b) + 0x1_0000_0000 * Unsigned32(b[4..])
  }

  lemma Digits(x: int, x1: int, x2: int, x3: int, x4: int)
    requires x1 == x / 0x100 && x2 == x1 / 0x100 && x3 == x2 / 0x100 && x4 == x3 / 0x100
    ensures x == x % 0x100 + 0x100 * (x1 % 0x100) + 0x1_0000 * (x2 % 0x100) + 0x100_0000 * (x3 % 0x100)
                 + 0x1_0000_0000 * x4
  {
    assert x == 0x100 * x1 + x % 0x100;
    assert x1 == 0x100 * x2 + x1 % 0x100;
    assert x2 == 0x100 * x3 + x2 % 0x100;
    assert x3 == 0x100 * x4 + x3 % 0x100;
  }

  lemma ModUnique(x: int, u: int, k: int)
    requires x == u + 0x1_0000_0000 * k && 0 <= u < 0x1_0000_0000
    ensures x % 0x1_0000_0000 == u
  {
  }

  lemma Le32Unsigned(x: int, rest: seq<byte>)
    ensures Unsigned32(Le32(x) + rest) == x % 0x1_0000_0000
  {
    var x1 := x / 0x100;
    var x2 := x1 / 0x100;
    var x3 := x2 / 0x100;
    var x4 := x3 / 0x100;
    var b := Le32(x) + rest;
    assert b[0] == x % 0x100 && b[1] == x1 % 0x100 && b[2] == x2 % 0x100 && b[3] == x3 % 0x100;
    Digits(x, x1, x2, x3, x4);
    hide Le32;
    ModUnique(x, Unsigned32(b), x4);
  }

  lemma Le32Signed(x: int, rest: seq<byte>)
    requires INT_MIN <= x <= INT_MAX
    ensures Signed32(Le32(x) + rest) == x
  {
    Le32Unsigned(x, rest);
  }

  /** A number just below the 32-bit range is read back 4 GB higher. */
  lemma Le32Wraps(x: int, rest: seq<byte>)
    requires INT_MIN - 4 <= x <= INT_MAX
    ensures Signed32(Le32(x) + rest) == if x >= INT_MIN then x else x + 0x1_0000_0000
  {
    Le32Unsigned(x, rest);
    hide Le32;
  }

  // ---- What the assembler emits ----

  /** absolute is 0 unless the operand is a fixed address; scaleFactor is 0 without an index. */
  datatype MemAddress = MemAddress(
    absolute: nat,
    offset: int,
    bitMode: nat,
    code: nat,
    scaleReg: nat,
    other: nat,
    scaleFactor: nat
  )

  /** Values that fit their fields; an operand without an index names no index register. */
  predicate Proper(a: MemAddress) {
    && a.absolute < 0x1_0000_0000_0000_0000
    && INT_MIN <= a.offset <= INT_MAX
    && a.code < 16 && a.scaleReg < 16 && a.other < 32
    && (a.scaleFactor == 0 ==> a.scaleReg == 0)
    && (a.absolute != 0 ==> a.scaleFactor == 0)
  }

  function ModRm(reg: int, mod: int, rm: int): byte
    requires 0 <= reg < 8 && 0 <= mod < 4 && 0 <= rm < 8
  {
    mod * 64 + reg * 8 + rm
  }

  function Sib(index: int, scale: int, base: int): byte
    requires 0 <= index < 8 && 0 <= scale < 4 && 0 <= base < 8
  {
    scale * 64 + index * 8 + base
  }

  function ScaleBits(factor: nat): Option<nat> {
    match factor
    case 1 => Some(0)
    case 2 => Some(1)
    case 4 => Some(2)
    case 8 => Some(3)
    case _ => None
  }

  /** The mode bits and the displacement: none, one byte, or four. [EBP] alone means something else. */
  function Mode(a: MemAddress): nat {
    if a.offset == 0 && a.code % 8 != EBP then 0 else if -128 <= a.offset <= 127 then 1 else 2
  }

  function Displacement(a: MemAddress): seq<byte> {
    match Mode(a)
    case 0 => []
    case 1 => Le8(a.offset)
    case _ => Le32(a.offset)
  }

  /** Nothing for an illegal scale and for an index that encodes like ESP. */
  function EmitAddress(a: MemAddress): Option<seq<byte>> {
    if a.absolute != 0 then
      if a.absolute <= INT_MAX then Some([ModRm(a.other % 8, 0, SIB), Sib(4, 0, ADDR)] + Le32(a.absolute))
      else Some([ModRm(a.other % 8, 0, R11 % 8)])
    else if a.scaleFactor != 0 then
      if ScaleBits(a.scaleFactor).None? || a.scaleReg % 8 == ESP then None
      else Some([ModRm(a.other % 8, Mode(a), SIB), Sib(a.scaleReg % 8, ScaleBits(a.scaleFactor).value, a.code % 8)]
                + Displacement(a))
    else
      Some([ModRm(a.other % 8, Mode(a), a.code % 8)] + (if a.code % 8 == ESP then [0x24] else []) + Displacement(a))
  }

  /** Writing the prefix of a distant address makes R11 its base. */
  function Prefixed(a: MemAddress): MemAddress {
    if a.absolute > INT_MAX then a.(code := R11) else a
  }

  function RexOf(a: MemAddress, defLong: bool): byte {
    0x40 + (if !defLong && a.bitMode == 64 then 8 else 0) + (if a.other % 16 > 7 then 4 else 0)
    + (if a.scaleReg > 7 then 2 else 0) + (if a.code % 16 > 7 then 1 else 0)
  }

  /** A distant address is first loaded into R11. */
  function EmitLoad(a: MemAddress): seq<byte> {
    if a.absolute > INT_MAX then [0x49, 0xBB] + Le64(a.absolute) else []
  }

  function EmitRex(a: MemAddress, defLong: bool, further: byte): seq<byte> {
    (if further != 0 then [further] else [])
    + (if RexOf(Prefixed(a), defLong) != 0x40 then [RexOf(Prefixed(a), defLong)] else [])
  }

  // ---- What a processor reads ----

  datatype Operand =
    | Memory(base: Option<nat>, index: Option<(nat, nat)>, disp: int)
    | RipRelative(disp: int)
    | Direct(reg: nat)

  datatype Decoded = Decoded(reg: nat, operand: Operand, rest: seq<byte>)

  function Bit(b: bool): nat {
    if b then 8 else 0
  }

  /** The displacement a mode calls for, and what follows it. */
  function ReadDisp(mod: int, bytes: seq<byte>): Option<(int, seq<byte>)> {
    match mod
    case 0 => Some((0, bytes))
    case 1 => if |bytes| < 1 then None else Some((Signed8(bytes[0]), bytes[1..]))
    case _ => if |bytes| < 4 then None else Some((Signed32(bytes), bytes[4..]))
  }

  /** Tables 2-2 and 2-3, with the register extensions of section 2.2.1. */
  function DecodeOperand(r: bool, x: bool, b: bool, bytes: seq<byte>): Option<Decoded> {
    if bytes == [] then None
    else DecodeModRm(bytes[0] / 64, bytes[0] / 8 % 8 + Bit(r), bytes[0] % 8, x, b, bytes[1..])
  }

  function DecodeModRm(mod: int, reg: nat, rm: nat, x: bool, b: bool, bytes: seq<byte>): Option<Decoded> {
    if mod == 3 then Some(Decoded(reg, Direct(rm + Bit(b)), bytes))
    else if rm == 4 then
      if bytes == [] then None
      else DecodeSib(mod, reg, bytes[0] / 64, bytes[0] / 8 % 8 + Bit(x), bytes[0] % 8, b, bytes[1..])
    else
      match ReadDisp(if rm == 5 && mod == 0 then 2 else mod, bytes)
      case None => None
      case Some((disp, rest)) =>
        if rm == 5 && mod == 0 then Some(Decoded(reg, RipRelative(disp), rest))
        else Some(Decoded(reg, Memory(Some(rm + Bit(b)), None, disp), rest))
  }

  function DecodeSib(mod: int, reg: nat, scale: int, index: nat, base: nat, b: bool,
                     bytes: seq<byte>): Option<Decoded> {
    var noBase := base == 5 && mod == 0;
    match ReadDisp(if noBase then 2 else mod, bytes)
    case None => None
    case Some((disp, rest)) =>
      Some(Decoded(reg, Memory(if noBase then None else Some(base + Bit(b)),
                               if index == 4 then None else Some((index, Factor(scale))), disp), rest))
  }

  function Factor(scale: int): nat {
    match scale
    case 0 => 1
    case 1 => 2
    case 2 => 4
    case _ => 8
  }

  /** The operand an address stands for. */
  function Denoted(a: MemAddress): Operand {
    if a.absolute > INT_MAX then Memory(Some(R11), None, 0)
    else if a.absolute != 0 then Memory(None, None, a.absolute)
    else Memory(Some(a.code), if a.scaleFactor == 0 then None else Some((a.scaleReg, a.scaleFactor)), a.offset)
  }

  lemma DisplacementReads(a: MemAddress, rest: seq<byte>)
    requires Proper(a)
    ensures ReadDisp(Mode(a), Displacement(a) + rest) == Some((a.offset, rest))
  {
    if Mode(a) == 0 {
      assert [] + rest == rest;
    } else if Mode(a) == 1 {
      assert (Le8(a.offset) + rest)[1..] == rest;
    } else {
      Le32Signed(a.offset, rest);
      assert (Le32(a.offset) + rest)[4..] == rest;
    }
  }

  lemma Divides(v: int, d: int, q: int, r: int)
    requires (d == 8 || d == 64) && v == d * q + r && 0 <= r < d
    ensures v / d == q && v % d == r
  {
  }

  /** Two, three and three bits come apart again. */
  lemma Fields(v: int, high: int, middle: int, low: int)
    requires v == high * 64 + middle * 8 + low && 0 <= high < 4 && 0 <= middle < 8 && 0 <= low < 8
    ensures v / 64 == high && v / 8 % 8 == middle && v % 8 == low
  {
    Divides(v, 64, high, middle * 8 + low);
    Divides(v, 8, high * 8 + middle, low);
    Divides(high * 8 + middle, 8, high, middle);
  }

  lemma ModRmFields(reg: int, mod: int, rm: int)
    requires 0 <= reg < 8 && 0 <= mod < 4 && 0 <= rm < 8
    ensures ModRm(reg, mod, rm) / 64 == mod && ModRm(reg, mod, rm) / 8 % 8 == reg && ModRm(reg, mod, rm) % 8 == rm
  {
    Fields(ModRm(reg, mod, rm), mod, reg, rm);
  }

  lemma SibFields(index: int, scale: int, base: int)
    requires 0 <= index < 8 && 0 <= scale < 4 && 0 <= base < 8
    ensures Sib(index, scale, base) / 64 == scale && Sib(index, scale, base) / 8 % 8 == index
    ensures Sib(index, scale, base) % 8 == base
  {
    Fields(Sib(index, scale, base), scale, index, base);
  }

  lemma RegisterBits(n: nat)
    requires n < 32
    ensures n % 8 + Bit(n % 16 > 7) == n % 16
  {
  }

  lemma FixedAddressDecodes(a: MemAddress, rest: seq<byte>)
    requires Proper(a) && a.absolute != 0
    ensures EmitAddress(a).Some?
    ensures DecodeOperand(a.other % 16 > 7, a.scaleReg > 7, Prefixed(a).code > 7, EmitAddress(a).value + rest)
      == Some(Decoded(a.other % 16, Denoted(a), rest))
  {
    hide Le32;
    hide ModRm;
    hide Sib;
    var bytes := EmitAddress(a).value + rest;
    RegisterBits(a.other);
    if a.absolute <= INT_MAX {
      ModRmFields(a.other % 8, 0, SIB);
      SibFields(4, 0, ADDR);
      Le32Signed(a.absolute, rest);
      assert bytes[1..][1..] == Le32(a.absolute) + rest;
      assert (Le32(a.absolute) + rest)[4..] == rest;
    } else {
      ModRmFields(a.other % 8, 0, R11 % 8);
      assert bytes[1..] == rest;
    }
  }

  lemma BaseDecodes(a: MemAddress, rest: seq<byte>)
    requires Proper(a) && a.absolute == 0 && a.scaleFactor == 0
    ensures EmitAddress(a).Some?
    ensures DecodeOperand(a.other % 16 > 7, a.scaleReg > 7, a.code > 7, EmitAddress(a).value + rest)
      == Some(Decoded(a.other % 16, Denoted(a), rest))
  {
    hide Displacement;
    hide ReadDisp;
    hide ModRm;
    var bytes := EmitAddress(a).value + rest;
    RegisterBits(a.other);
    RegisterBits(a.code);
    ModRmFields(a.other % 8, Mode(a), a.code % 8);
    DisplacementReads(a, rest);
    assert bytes[1..] == (if a.code % 8 == ESP then [0x24] else []) + Displacement(a) + rest;
    assert a.code % 8 == ESP ==> bytes[1..][1..] == Displacement(a) + rest;
    assert a.code % 8 != ESP ==> bytes[1..] == Displacement(a) + rest;
  }

  lemma IndexedDecodes(a: MemAddress, rest: seq<byte>)
    requires Proper(a) && a.absolute == 0 && a.scaleFactor != 0 && EmitAddress(a).Some?
    ensures DecodeOperand(a.other % 16 > 7, a.scaleReg > 7, a.code > 7, EmitAddress(a).value + rest)
      == Some(Decoded(a.other % 16, Denoted(a), rest))
  {
    hide Displacement;
    hide ReadDisp;
    hide ModRm;
    hide Sib;
    var bytes := EmitAddress(a).value + rest;
    RegisterBits(a.other);
    RegisterBits(a.code);
    RegisterBits(a.scaleReg);
    ModRmFields(a.other % 8, Mode(a), SIB);
    SibFields(a.scaleReg % 8, ScaleBits(a.scaleFactor).value, a.code % 8);
    DisplacementReads(a, rest);
    assert bytes[1..][1..] == Displacement(a) + rest;
  }

  /** Every operand the assembler encodes is read back as itself, and nothing behind it is touched.
      It encodes all but an illegal scale and an index whose number ends like ESP's. */
  lemma OperandDecodes(a: MemAddress, rest: seq<byte>)
    requires Proper(a)
    ensures EmitAddress(a).None? <==>
      a.absolute == 0 && a.scaleFactor != 0 && (a.scaleFactor !in {1, 2, 4, 8} || a.scaleReg == 4 || a.scaleReg == 12)
    ensures EmitAddress(a).Some? ==>
      DecodeOperand(a.other % 16 > 7, a.scaleReg > 7, Prefixed(a).code > 7, EmitAddress(a).value + rest)
      == Some(Decoded(a.other % 16, Denoted(a), rest))
  {
    hide DecodeOperand;
    if a.absolute != 0 {
      FixedAddressDecodes(a, rest);
    } else if a.scaleFactor == 0 {
      BaseDecodes(a, rest);
    } else if EmitAddress(a).Some? {
      IndexedDecodes(a, rest);
    }
  }

  // ---- Whole instructions ----

  /** Reads a legacy prefix if there is one, REX if there is one, the opcode, and the operand. */
  function DecodeInstruction(bytes: seq<byte>, legacy: bool, opcodeLength: nat): Option<(bool, Decoded)> {
    var b1 := if legacy && bytes != [] then bytes[1..] else bytes;
    var hasRex := b1 != [] && 0x40 <= b1[0] <= 0x4F;
    var rex := if hasRex then b1[0] else 0x40;
    var b2 := if hasRex then b1[1..] else b1;
    if |b2| < opcodeLength then None
    else
      match DecodeOperand(rex / 4 % 2 == 1, rex / 2 % 2 == 1, rex % 2 == 1, b2[opcodeLength..])
      case None => None
      case Some(d) => Some((rex / 8 % 2 == 1, d))
  }

  lemma Le64Reads(x: nat, rest: seq<byte>)
    requires x < 0x1_0000_0000_0000_0000
    ensures Unsigned64(Le64(x) + rest) == x
  {
    hide Le32;
    hide Unsigned32;
    var lo, hi := x % 0x1_0000_0000, x / 0x1_0000_0000;
    Le32Unsigned(lo, Le32(hi) + rest);
    Le32Unsigned(hi, rest);
    assert Le64(x) + rest == Le32(lo) + (Le32(hi) + rest);
    assert (Le64(x) + rest)[4..] == Le32(hi) + rest;
  }

  lemma RexBits(a: MemAddress, defLong: bool)
    requires a.code < 16
    ensures var rex := RexOf(a, defLong);
      && 0x40 <= rex <= 0x4F
      && (rex / 8 % 2 == 1 <==> !defLong && a.bitMode == 64)
      && (rex / 4 % 2 == 1 <==> a.other % 16 > 7)
      && (rex / 2 % 2 == 1 <==> a.scaleReg > 7)
      && (rex % 2 == 1 <==> a.code > 7)
  {
  }

  lemma ReadsThrough(legacy: seq<byte>, rex: byte, opcode: seq<byte>, operand: seq<byte>)
    requires |legacy| <= 1 && 0x40 <= rex <= 0x4F && opcode != [] && !(0x40 <= opcode[0] <= 0x4F)
    ensures var rexBytes: seq<byte> := if rex != 0x40 then [rex] else [];
      DecodeInstruction(legacy + rexBytes + opcode + operand, legacy != [], |opcode|) ==
      match DecodeOperand(rex / 4 % 2 == 1, rex / 2 % 2 == 1, rex % 2 == 1, operand)
      case None => None
      case Some(d) => Some((rex / 8 % 2 == 1, d))
  {
    hide DecodeOperand;
    var rexBytes: seq<byte> := if rex != 0x40 then [rex] else [];
    var bytes := legacy + rexBytes + opcode + operand;
    assert bytes[|legacy|..] == rexBytes + opcode + operand;
    assert (rexBytes + opcode + operand)[|rexBytes|..] == opcode + operand;
    assert (opcode + operand)[|opcode|..] == operand;
  }

  /** A whole instruction, behind the load of a distant address: prefixes, opcode and operand are
      read as written. */
  lemma InstructionDecodes(a: MemAddress, defLong: bool, further: byte, opcode: seq<byte>, rest: seq<byte>)
    requires Proper(a) && EmitAddress(a).Some? && opcode != [] && !(0x40 <= opcode[0] <= 0x4F)
    ensures var bytes := EmitRex(a, defLong, further) + opcode + (EmitAddress(a).value + rest);
      DecodeInstruction(bytes, further != 0, |opcode|)
      == Some((!defLong && a.bitMode == 64, Decoded(a.other % 16, Denoted(a), rest)))
  {
    hide DecodeInstruction;
    hide DecodeOperand;
    hide EmitAddress;
    hide RexOf;
    hide Denoted;
    OperandDecodes(a, rest);
    RexBits(Prefixed(a), defLong);
    var legacy: seq<byte> := if further != 0 then [further] else [];
    ReadsThrough(legacy, RexOf(Prefixed(a), defLong), opcode, EmitAddress(a).value + rest);
  }

  /** The load of a distant address: REX.W+B, opcode B8 + 3 (R11), and the 64 bits of the address. */
  lemma LoadDecodes(a: MemAddress)
    requires Proper(a)
    ensures EmitAddress(Prefixed(a)) == EmitAddress(a)
    ensures if a.absolute <= INT_MAX then EmitLoad(a) == []
      else |EmitLoad(a)| == 10 && EmitLoad(a)[..2] == [0x49, 0xBB] && Unsigned64(EmitLoad(a)[2..]) == a.absolute
  {
    if a.absolute > INT_MAX {
      Le64Reads(a.absolute, []);
      assert EmitLoad(a)[2..] == Le64(a.absolute) + [];
    }
    hide Le64;
    hide Unsigned64;
  }

  // ---- Near branches ----

  /** The unconditional jump; 0 to 15 are the condition codes. */
  const JUMP := 16

  /** Addresses of a process; their differences fit 64 bits with a sign. */
  const ADDRESS_LIMIT := 0x8000_0000_0000_0000

  /** The distance counted from behind the short form. */
  function Distance(op: int, dest: int): int {
    dest - op - 2
  }

  predicate IsNear(op: int, dest: int) {
    INT_MIN <= Distance(op, dest) <= INT_MAX
  }

  /** R11 is loaded, in 32 bits for address 0, and jumped through. */
  function FarJump(dest: nat): (r: seq<byte>)
    ensures |r| == if dest != 0 then 13 else 9
  {
    if dest != 0 then [0x49, 0xBB] + Le64(dest) + [0x49, 0xFF, ModRm(4, 3, R11 % 8)]
    else [0x41, 0xBB] + Le32(0) + [0x41, 0xFF, ModRm(4, 3, R11 % 8)]
  }

  /** Bytes of a branch at address op to dest. Beyond 2 GB the condition plays no part. */
  function EmitJump(cond: nat, op: int, dest: nat): (r: seq<byte>)
    requires cond <= JUMP
    ensures |r| >= 2
  {
    var offset := Distance(op, dest);
    if -128 <= offset <= 127 then [if cond == JUMP then 0xEB else 0x70 + cond] + Le8(offset)
    else if !IsNear(op, dest) then FarJump(dest)
    else if cond == JUMP then [0xE9] + Le32(offset - 3)
    else [0x0F, 0x80 + cond] + Le32(offset - 4)
  }

  /** Condition, destination and length of the branch at an address: relative, or through R11 right after it was
      loaded. */
  function DecodeJump(op: int, bytes: seq<byte>): Option<(nat, int, nat)>
  {
    if |bytes| < 2 then None
    else if bytes[0] == 0xEB then Some((JUMP, op + 2 + Signed8(bytes[1]), 2))
    else if 0x70 <= bytes[0] <= 0x7F then Some((bytes[0] - 0x70, op + 2 + Signed8(bytes[1]), 2))
    else if bytes[0] == 0xE9 && |bytes| >= 5 then Some((JUMP, op + 5 + Signed32(bytes[1..]), 5))
    else if bytes[0] == 0x0F && 0x80 <= bytes[1] <= 0x8F && |bytes| >= 6 then
      Some((bytes[1] - 0x80, op + 6 + Signed32(bytes[2..]), 6))
    else if bytes[0] == 0x49 && bytes[1] == 0xBB && |bytes| >= 13 && JumpsThroughR11(bytes[10..]) then
      Some((JUMP, Unsigned64(bytes[2..]), 13))
    else if bytes[0] == 0x41 && bytes[1] == 0xBB && |bytes| >= 9 && JumpsThroughR11(bytes[6..]) then
      Some((JUMP, Unsigned32(bytes[2..]), 9))
    else None
  }

  /** A REX prefix with the base bit, and FF /4 with a register operand: R11. */
  predicate JumpsThroughR11(bytes: seq<byte>) {
    |bytes| >= 3 && 0x40 <= bytes[0] <= 0x4F && bytes[0] % 2 == 1 && bytes[1] == 0xFF && bytes[2] == 0xE3
  }

  lemma LoadedJumpReads(op: int, load: seq<byte>, rest: seq<byte>)
    requires |load| == 8
    ensures DecodeJump(op, [0x49, 0xBB] + load + [0x49, 0xFF, 0xE3] + rest) == Some((JUMP, Unsigned64(load), 13))
  {
    hide Unsigned32;
    var bytes: seq<byte> := [0x49, 0xBB] + load + [0x49, 0xFF, 0xE3] + rest;
    assert bytes[10..] == [0x49, 0xFF, 0xE3] + rest;
    assert bytes[2..] == load + ([0x49, 0xFF, 0xE3] + rest);
    Unsigned64Prefix(load, [0x49, 0xFF, 0xE3] + rest);
  }

  lemma Unsigned64Prefix(b: seq<byte>, rest: seq<byte>)
    requires |b| == 8
    ensures Unsigned64(b + rest) == Unsigned64(b)
  {
  }

  lemma NullJumpReads(op: int, rest: seq<byte>)
    ensures DecodeJump(op, [0x41, 0xBB, 0, 0, 0, 0, 0x41, 0xFF, 0xE3] + rest) == Some((JUMP, 0, 9))
  {
    var bytes: seq<byte> := [0x41, 0xBB, 0, 0, 0, 0, 0x41, 0xFF, 0xE3] + rest;
    assert bytes[6..] == [0x41, 0xFF, 0xE3] + rest;
  }

  lemma FarJumpReads(op: int, dest: nat, rest: seq<byte>)
    requires dest < ADDRESS_LIMIT
    ensures DecodeJump(op, FarJump(dest) + rest) == Some((JUMP, dest as int, |FarJump(dest)|))
  {
    hide DecodeJump;
    if dest != 0 {
      Le64Reads(dest, []);
      assert Le64(dest) + [] == Le64(dest);
      hide Le64;
      hide Unsigned64;
      LoadedJumpReads(op, Le64(dest), rest);
    } else {
      NullJumpReads(op, rest);
      assert FarJump(0) == [0x41, 0xBB, 0, 0, 0, 0, 0x41, 0xFF, 0xE3];
    }
  }

  /** What a branch is read as. Within 2 GB it keeps condition and destination, unless the longer form pushes the
      offset below the 32-bit range: then it goes 4 GB too far. Beyond 2 GB it goes to its destination, but always. */
  lemma JumpReads(cond: nat, op: int, dest: nat, rest: seq<byte>)
    requires cond <= JUMP && dest < ADDRESS_LIMIT
    ensures DecodeJump(op, EmitJump(cond, op, dest) + rest) ==
      var n := |EmitJump(cond, op, dest)|;
      if !IsNear(op, dest) then Some((JUMP, dest as int, n))
      else if Distance(op, dest) >= INT_MIN + (if cond == JUMP then 3 else 4) then Some((cond, dest as int, n))
      else Some((cond, dest + 0x1_0000_0000, n))
  {
    hide Le32;
    hide Signed32;
    hide FarJump;
    var offset := Distance(op, dest);
    var bytes := EmitJump(cond, op, dest) + rest;
    if !IsNear(op, dest) {
      FarJumpReads(op, dest, rest);
    } else if offset < -128 || 127 < offset {
      var k := if cond == JUMP then 3 else 4;
      Le32Wraps(offset - k, rest);
      assert bytes[k - 2..] == Le32(offset - k) + rest;
    }
  }

  /** A branch is read back with its own condition and destination if and only if it stays clear of the lower end
      of the 32-bit range, or is unconditional and goes beyond the range. */
  lemma JumpDecodes(cond: nat, op: int, dest: nat, rest: seq<byte>)
    requires cond <= JUMP && dest < ADDRESS_LIMIT
    ensures var bytes := EmitJump(cond, op, dest);
      DecodeJump(op, bytes + rest) == Some((cond, dest as int, |bytes|)) <==>
      if IsNear(op, dest) then Distance(op, dest) >= INT_MIN + (if cond == JUMP then 3 else 4) else cond == JUMP
  {
    JumpReads(cond, op, dest, rest);
    hide DecodeJump;
    hide EmitJump;
  }

  function LongJumpHead(cond: nat): (r: seq<byte>)
    requires cond <= JUMP
    ensures 1 <= |r| <= 2
  {
    if cond == JUMP then [0xE9] else [0x0F, 0x80 + cond]
  }

  function ShortJumpCode(cond: nat): byte
    requires cond <= JUMP
  {
    if cond == JUMP then 0xEB else 0x70 + cond
  }

  lemma LongJumpReads(cond: nat, op: int, dest: int, rest: seq<byte>)
    requires cond <= JUMP && INT_MIN <= dest - (op + |LongJumpHead(cond)| + 4) <= INT_MAX
    ensures var n := |LongJumpHead(cond)| + 4;
      DecodeJump(op, LongJumpHead(cond) + Le32(dest - (op + n)) + rest) == Some((cond, dest, n))
  {
    hide Le32;
    hide Signed32;
    var n := |LongJumpHead(cond)|;
    var disp := dest - (op + n + 4);
    Le32Signed(disp, rest);
    assert (LongJumpHead(cond) + Le32(disp) + rest)[n..] == Le32(disp) + rest;
  }

  /** Code being emitted from address base on. */
  class CodeBuffer {
    const base: nat
    var code: seq<byte>

    /** There is a long jump at start whose displacement, at site, is still open. */
    ghost predicate LongOpen(start: nat, cond: nat, site: nat)
      reads this
    {
      && cond <= JUMP && site + 4 <= |code| && start + |LongJumpHead(cond)| == site
      && code[start..site] == LongJumpHead(cond)
    }

    ghost predicate ShortOpen(start: nat, cond: nat, site: nat)
      reads this
    {
      cond <= JUMP && site < |code| && start + 1 == site && code[start] == ShortJumpCode(cond)
    }

    /** What is read at an offset of the code. */
    ghost function ReadAt(start: nat): Option<(nat, int, nat)>
      requires start <= |code|
      reads this
    {
      DecodeJump(base + start, code[start..])
    }

    constructor (base: nat)
      ensures this.base == base && code == []
    {
      this.base := base;
      code := [];
    }

    method PrepLongJump(cond: nat) returns (site: nat)
      requires cond <= JUMP
      modifies this
      ensures old(code) <= code && LongOpen(|old(code)|, cond, site)
    {
      code := code + LongJumpHead(cond);
      site := |code|;
      code := code + Le32(0);
    }

    /** The jump goes here: to the next byte to be emitted. Other bytes stay. Refused, with nothing changed, when the
        distance does not fit 32 bits. */
    method EndLongJump(site: nat, ghost start: nat, ghost cond: nat) returns (ok: bool)
      requires LongOpen(start, cond, site)
      modifies this
      ensures ok <==> |old(code)| - site - 4 <= INT_MAX
      ensures !ok ==> code == old(code)
      ensures ok ==> |code| == |old(code)| && code[..site] == old(code)[..site]
      ensures ok ==> code[site + 4..] == old(code)[site + 4..]
      ensures ok ==> ReadAt(start) == Some((cond, base + |code|, site + 4 - start))
    {
      hide DecodeJump;
      hide Le32;
      var offset := |code| - site - 4;
      if offset < INT_MIN || offset > INT_MAX {
        return false;
      }
      LongJumpReads(cond, base + start, base + |code|, code[site + 4..]);
      code := code[..site] + Le32(offset) + code[site + 4..];
      assert code[start..] == LongJumpHead(cond) + Le32(offset) + old(code)[site + 4..];
      return true;
    }

    method PrepShortJump(cond: nat) returns (site: nat)
      requires cond <= JUMP
      modifies this
      ensures old(code) <= code && ShortOpen(|old(code)|, cond, site)
    {
      code := code + [ShortJumpCode(cond)];
      site := |code|;
      code := code + [0];
    }

    /** Refused, with nothing changed, when the distance does not fit a byte. */
    method EndShortJump(site: nat, ghost start: nat, ghost cond: nat) returns (ok: bool)
      requires ShortOpen(start, cond, site)
      modifies this
      ensures ok <==> |old(code)| - site - 1 <= 127
      ensures !ok ==> code == old(code)
      ensures ok ==> |code| == |old(code)| && code[..site] == old(code)[..site]
      ensures ok ==> code[site + 1..] == old(code)[site + 1..] && ReadAt(start) == Some((cond, base + |code|, 2))
    {
      var offset := |code| - site - 1;
      if offset < -128 || offset > 127 {
        return false;
      }
      code := code[site := offset % 0x100];
      return true;
    }

    /** A branch to an address that is known. */
    method Jump(cond: nat, dest: nat)
      requires cond <= JUMP && dest < ADDRESS_LIMIT
      modifies this
      ensures code == old(code) + EmitJump(cond, base + |old(code)|, dest)
      ensures ReadAt(|old(code)|) == Some((cond, dest as int, |code| - |old(code)|)) <==>
        var op := base + |old(code)|;
        if IsNear(op, dest) then Distance(op, dest) >= INT_MIN + (if cond == JUMP then 3 else 4) else cond == JUMP
    {
      hide DecodeJump;
      hide EmitJump;
      var bytes := EmitJump(cond, base + |code|, dest);
      JumpDecodes(cond, base + |code|, dest, []);
      assert bytes + [] == bytes;
      code := code + bytes;
      assert code[|old(code)|..] == bytes;
    }
  }
}
