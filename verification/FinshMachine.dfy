/** The FinSH stack machine: 32-bit operand encoding, data memory, the DWORD
    instructions and the fetch/dispatch loop, as functions on values.
    FinshVm.dfy runs the same instructions on arrays. */
module FinshMachine {
  import opened Options

  const M32: int := 0x1_0000_0000
  const STACK_MAX: nat := 64
  const TEXT_MAX: nat := 128
  const ARGS_MAX: nat := 16

  type Word = w: int | 0 <= w < 0x1_0000_0000
  type Byte = b: int | 0 <= b < 256

  /** Data memory, byte addressed; addresses wrap at 2^32. Bytes never written read as 0. */
  type Mem = map<Word, Byte>

  /** What a system call at some address does with its arguments and the memory. */
  type Env = (Word, seq<Word>, Mem) -> (Word, Mem)

  // ---- 32-bit little-endian operands ----

  function Set32(v: Word): (b: seq<Byte>)
    ensures |b| == 4
  {
    [v % 256, v / 256 % 256, v / 256 / 256 % 256, v / 256 / 256 / 256]
  }

  function Get32(b0: Byte, b1: Byte, b2: Byte, b3: Byte): Word {
    b0 + 256 * (b1 + 256 * (b2 + 256 * b3))
  }

  /** Writing a word into the text segment and reading it back is the identity, both ways. */
  lemma OperandRoundTrip(v: Word, b0: Byte, b1: Byte, b2: Byte, b3: Byte)
    ensures var s := Set32(v); Get32(s[0], s[1], s[2], s[3]) == v
    ensures Set32(Get32(b0, b1, b2, b3)) == [b0, b1, b2, b3]
  {
    var w3, w2, w1 := v / 256 / 256 / 256, v / 256 / 256, v / 256;
    assert v == v % 256 + 256 * w1 && w1 == w1 % 256 + 256 * w2 && w2 == w2 % 256 + 256 * w3;
    LowByte(b0, b1 + 256 * (b2 + 256 * b3));
    LowByte(b1, b2 + 256 * b3);
    LowByte(b2, b3);
  }

  lemma LowByte(b: Byte, high: nat)
    ensures (b + 256 * high) % 256 == b && (b + 256 * high) / 256 == high
  {
  }

  function Wrap(i: int): Word {
    i % 0x1_0000_0000
  }

  function ByteAt(m: Mem, a: int): Byte {
    var w := Wrap(a);
    if w in m then m[w] else 0
  }

  function Load32(m: Mem, a: Word): Word {
    Get32(ByteAt(m, a), ByteAt(m, a + 1), ByteAt(m, a + 2), ByteAt(m, a + 3))
  }

  function Store32(m: Mem, a: Word, v: Word): Mem {
    var b := Set32(v);
    m[a := b[0]][Wrap(a + 1) := b[1]][Wrap(a + 2) := b[2]][Wrap(a + 3) := b[3]]
  }

  /** A stored word is read back, wherever it lies (also across the 2^32 wrap). */
  lemma LoadAfterStore(m: Mem, a: Word, v: Word)
    ensures Load32(Store32(m, a, v), a) == v
  {
    hide Set32, Get32;
    var b, s := Set32(v), Store32(m, a, v);
    WrapDiffers(a, a + 1); WrapDiffers(a, a + 2); WrapDiffers(a, a + 3);
    WrapDiffers(a + 1, a + 2); WrapDiffers(a + 1, a + 3); WrapDiffers(a + 2, a + 3);
    assert ByteAt(s, a) == b[0] && ByteAt(s, a + 1) == b[1] && ByteAt(s, a + 2) == b[2] && ByteAt(s, a + 3) == b[3];
    OperandRoundTrip(v, 0, 0, 0, 0);
  }

  lemma WrapDiffers(i: int, j: int)
    requires i < j < i + 0x1_0000_0000
    ensures Wrap(i) != Wrap(j)
  {
    assert i == 0x1_0000_0000 * (i / 0x1_0000_0000) + Wrap(i) && j == 0x1_0000_0000 * (j / 0x1_0000_0000) + Wrap(j);
  }

  // ---- arithmetic on long values (two's complement, 32 bits) ----

  datatype BinOp = Add | Sub | Div | Mod | Mul | And | Or | Xor | Shl | Shr

  function Signed(w: Word): int {
    if w < 0x8000_0000 then w else w - 0x1_0000_0000
  }

  function Abs(i: int): nat { if i < 0 then -i else i }

  /** C division: truncation toward zero. */
  function TruncDiv(a: int, b: int): int
    requires b != 0
  {
    var q := Abs(a) / Abs(b);
    if (a < 0) == (b < 0) then q else -q
  }

  /** The operator % of C, which takes the sign of the dividend. */
  function Remainder(a: Word, b: Word): Word
    requires b != 0
  {
    Wrap(Signed(a) - Signed(b) * TruncDiv(Signed(a), Signed(b)))
  }

  function Bits(v: bv32): Word {
    v as int
  }

  function Vec(w: Word): bv32 {
    w as bv32
  }

  function BitAnd(a: Word, b: Word): Word { Bits(Vec(a) & Vec(b)) }

  function BitOr(a: Word, b: Word): Word { Bits(Vec(a) | Vec(b)) }

  function BitXor(a: Word, b: Word): Word { Bits(Vec(a) ^ Vec(b)) }

  function Complement(a: Word): Word { Bits(!Vec(a)) }

  /** None where C leaves the result undefined: division by zero and shift counts outside 0..31. */
  function Alu(op: BinOp, a: Word, b: Word): Option<Word> {
    match op
    case Add => Some(Wrap(a + b))
    case Sub => Some(Wrap(a - b))
    case Mul => Some(Wrap(a * b))
    case Div => if b == 0 then None else Some(Wrap(TruncDiv(Signed(a), Signed(b))))
    case Mod => if b == 0 then None else Some(Remainder(a, b))
    case And => Some(BitAnd(a, b))
    case Or => Some(BitOr(a, b))
    case Xor => Some(BitXor(a, b))
    case Shl => if b < 32 then Some(Wrap(a * Pow2(b))) else None
    case Shr => if b < 32 then Some(Shift(a, Pow2(b))) else None
  }

  /** Arithmetic right shift: floor division of the signed value. */
  function Shift(a: Word, p: nat): Word {
    if p == 0 then 0 else Wrap(Signed(a) / p)
  }

  // ---- instructions ----

  const NOOP: Byte := 0x00
  const BITWISE: Byte := 0x1B
  const LD_DWORD: Byte := 0x24
  const LD_VALUE: Byte := 0x27
  const ST_DWORD: Byte := 0x2A
  const POP: Byte := 0x2B
  const SYSCALL: Byte := 0x2C
  const LD_VALUE_STACK: Byte := 0x2F

  function OpCode(op: BinOp): Byte {
    match op
    case Add => 0x03 case Sub => 0x06 case Div => 0x09 case Mod => 0x0C case Mul => 0x0F
    case And => 0x12 case Or => 0x15 case Xor => 0x18 case Shl => 0x1E case Shr => 0x21
  }

  /** The dispatch table read backwards, for the two-operand DWORD instructions. */
  function Decode(b: Byte): (r: Option<BinOp>)
    ensures forall op :: r == Some(op) <==> OpCode(op) == b
  {
    if b == 0x03 then Some(Add) else if b == 0x06 then Some(Sub) else if b == 0x09 then Some(Div)
    else if b == 0x0C then Some(Mod) else if b == 0x0F then Some(Mul) else if b == 0x12 then Some(And)
    else if b == 0x15 then Some(Or) else if b == 0x18 then Some(Xor) else if b == 0x1E then Some(Shl)
    else if b == 0x21 then Some(Shr) else None
  }

  // ---- machine ----

  /** stack holds the live cells below finsh_sp. */
  datatype State = State(stack: seq<Word>, pc: nat, mem: Mem)

  /** Fault: the C code would leave its arrays, divide by zero, or meet an
      instruction outside the DWORD subset. */
  datatype Outcome = Ok(st: State) | Fault

  function Push(st: State, v: Word): Outcome {
    if |st.stack| < STACK_MAX then Ok(st.(stack := st.stack + [v])) else Fault
  }

  function Operand(text: seq<Byte>, pc: nat): Word
    requires pc + 4 <= |text|
  {
    Get32(text[pc], text[pc + 1], text[pc + 2], text[pc + 3])
  }

  /** One round of the dispatch loop: op = *finsh_pc++; op_table[op](). */
  function Step(text: seq<Byte>, env: Env, st: State): (r: Outcome)
    requires st.pc < |text|
    ensures r.Ok? ==> st.pc < r.st.pc
  {
    var op, s := text[st.pc], st.(pc := st.pc + 1);
    if op == NOOP then Ok(s)
    else if op == LD_DWORD || op == LD_VALUE then
      if s.pc + 4 <= |text| then
        var v := Operand(text, s.pc);
        Push(s.(pc := s.pc + 4), if op == LD_DWORD then v else Load32(st.mem, v))
      else Fault
    else if op == SYSCALL then
      if s.pc < |text| then Call(env, s.(pc := s.pc + 1), text[s.pc]) else Fault
    else StackStep(op, s)
  }

  /** The instructions without operand bytes: they only work on the top cells. */
  function StackStep(op: Byte, st: State): (r: Outcome)
    ensures r.Ok? ==> r.st.pc == st.pc
  {
    var n := |st.stack|;
    if n == 0 then Fault
    else if op == POP then Ok(st.(stack := st.stack[..n - 1]))
    else if op == BITWISE then Ok(st.(stack := st.stack[..n - 1] + [Complement(st.stack[n - 1])]))
    else if op == LD_VALUE_STACK then Ok(st.(stack := st.stack[..n - 1] + [Load32(st.mem, st.stack[n - 1])]))
    else if n == 1 then Fault
    else if op == ST_DWORD then
      Ok(State(st.stack[..n - 1], st.pc, Store32(st.mem, st.stack[n - 2], st.stack[n - 1])))
    else match Decode(op)
      case None => Fault
      case Some(b) => Binary(b, st)
  }

  function Binary(op: BinOp, st: State): (r: Outcome)
    requires 2 <= |st.stack|
    ensures r.Ok? ==> r.st.pc == st.pc
  {
    var n := |st.stack|;
    match Alu(op, st.stack[n - 2], st.stack[n - 1])
    case None => Fault
    case Some(v) => Ok(st.(stack := st.stack[..n - 2] + [v]))
  }

  /** The argument values sit above the function address; a call without arguments passes 0. */
  function Call(env: Env, st: State, params: nat): (r: Outcome)
    ensures r.Ok? ==> r.st.pc == st.pc
  {
    var n := |st.stack|;
    if params > ARGS_MAX || n < params + 1 then Fault
    else
      var (r, m) := env(st.stack[n - params - 1], Passed(st.stack[n - params..]), st.mem);
      Ok(State(st.stack[..n - params - 1] + [r], st.pc, m))
  }

  function Passed(args: seq<Word>): seq<Word> {
    if args == [] then [0] else args
  }

  /** finsh_vm_run from an arbitrary state: instructions only move the pc forward,
      so the loop ends when it leaves the text segment. */
  function Exec(text: seq<Byte>, env: Env, st: State): Outcome
    decreases |text| - st.pc
  {
    if st.pc >= |text| then Ok(st)
    else match Step(text, env, st)
      case Fault => Fault
      case Ok(s) => Exec(text, env, s)
  }
}
