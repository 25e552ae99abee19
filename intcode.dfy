/** The IntCode instruction set shared by every copy of the virtual machine:
    the decoded instruction, the two decoders (positional, used by the day-5
    and day-7 machines, and relative, used by the day-9 and day-11 machines)
    and the effect of one decoded instruction on the machine core. */
module Intcode {
  import opened Wrappers
  import opened RustInt

  /** A decoded instruction; operands are already resolved to values,
      destinations and jump targets to addresses. */
  datatype Instr =
    | Add(a: int, b: int, out: int)
    | Mul(a: int, b: int, out: int)
    | Inp(out: int)
    | Out(a: int)
    | Jnz(a: int, target: int)
    | Jz(a: int, target: int)
    | Lt(a: int, b: int, out: int)
    | Eq(a: int, b: int, out: int)
    | Rbo(a: int)
    | Hlt

  /** The panics of the program, as values. `BadAddress` is an index
      outside memory (a negative address is the wrapped `as usize` value,
      which is always outside memory too). */
  datatype Fault =
    | UnknownOpcode(code: int)
    | ImmediateDestination
    | BadAddress(addr: int)
    | InputUnderflow

  /** What one step of a machine with state `S` does. */
  datatype Event<S> =
    | Continue(next: S)
    | Emitted(value: int, next: S)
    | Halt
    | Crash(fault: Fault)

  /** Registers and memory of a machine: program counter, memory and relative base. */
  datatype Core = Core(pc: int, mem: seq<int>, rb: int)

  // ---------------------------------------------------------------------
  // Instruction words
  // ---------------------------------------------------------------------

  function Pow10(n: nat): (p: nat)
    ensures p >= 1
  {
    if n == 0 then 1 else 10 * Pow10(n - 1)
  }

  /** The opcode: the word's value modulo 100, truncated as in Rust. */
  function Opcode(word: int): int { Rem(word, 100) }

  /** The mode digit of operand `n`: `word / (10 * 10^n) % 10`. */
  function Mode(word: int, n: nat): int
    requires 1 <= n <= 3
  {
    Rem(Quot(word, 10 * Pow10(n)), 10)
  }

  /** The opcodes the relative decoder knows. */
  predicate KnownRelative(code: int) { 1 <= code <= 9 || code == 99 }

  /** The opcodes the positional decoder knows (no relative-base adjust). */
  predicate KnownPositional(code: int) { 1 <= code <= 8 || code == 99 }

  /** The instruction word an assembler writes for opcode `op` with modes `m1`, `m2`, `m3`. */
  function Word(op: int, m1: int, m2: int, m3: int): int
  {
    op + 100 * m1 + 1000 * m2 + 10000 * m3
  }

  /** `n` zero cells, the padding the later machines append to the program. */
  function Zeros(n: nat): (z: seq<int>)
    ensures |z| == n && forall i :: 0 <= i < n ==> z[i] == 0
  {
    seq(n, _ => 0)
  }

  function Read(mem: seq<int>, addr: int): Result<int, Fault>
  {
    if 0 <= addr < |mem| then Ok(mem[addr]) else Err(BadAddress(addr))
  }

  // ---------------------------------------------------------------------
  // The relative decoder (day 9 and day 11)
  // ---------------------------------------------------------------------

  /** Operand `n` read as a value: mode 1 is the literal word, mode 2 is
      relative to the base, every other digit is a position. */
  function Param(mem: seq<int>, pc: int, rb: int, n: nat): Result<int, Fault>
    requires 0 <= pc < |mem| && 1 <= n <= 3
  {
    var p :- Read(mem, pc + n);
    var mode := Mode(mem[pc], n);
    if mode == 1 then Ok(p)
    else if mode == 2 then Read(mem, rb + p)
    else Read(mem, p)
  }

  /** Operand `n` read as a destination address. */
  function Dest(mem: seq<int>, pc: int, rb: int, n: nat): Result<int, Fault>
    requires 0 <= pc < |mem| && 1 <= n <= 3
  {
    var p :- Read(mem, pc + n);
    var mode := Mode(mem[pc], n);
    if mode == 1 then Err(ImmediateDestination)
    else if mode == 2 then Ok(rb + p)
    else Ok(p)
  }

  function DecodeRelative(mem: seq<int>, pc: int, rb: int): Result<Instr, Fault>
  {
    if !(0 <= pc < |mem|) then Err(BadAddress(pc))
    else
      match Opcode(mem[pc])
      case 1 =>
        var a :- Param(mem, pc, rb, 1); var b :- Param(mem, pc, rb, 2); var out :- Dest(mem, pc, rb, 3);
        Ok(Add(a, b, out))
      case 2 =>
        var a :- Param(mem, pc, rb, 1); var b :- Param(mem, pc, rb, 2); var out :- Dest(mem, pc, rb, 3);
        Ok(Mul(a, b, out))
      case 3 =>
        var out :- Dest(mem, pc, rb, 1);
        Ok(Inp(out))
      case 4 =>
        var a :- Param(mem, pc, rb, 1);
        Ok(Out(a))
      case 5 =>
        var a :- Param(mem, pc, rb, 1); var b :- Param(mem, pc, rb, 2);
        Ok(Jnz(a, b))
      case 6 =>
        var a :- Param(mem, pc, rb, 1); var b :- Param(mem, pc, rb, 2);
        Ok(Jz(a, b))
      case 7 =>
        var a :- Param(mem, pc, rb, 1); var b :- Param(mem, pc, rb, 2); var out :- Dest(mem, pc, rb, 3);
        Ok(Lt(a, b, out))
      case 8 =>
        var a :- Param(mem, pc, rb, 1); var b :- Param(mem, pc, rb, 2); var out :- Dest(mem, pc, rb, 3);
        Ok(Eq(a, b, out))
      case 9 =>
        var a :- Param(mem, pc, rb, 1);
        Ok(Rbo(a))
      case 99 => Ok(Hlt)
      case code => Err(UnknownOpcode(code))
  }

  // ---------------------------------------------------------------------
  // The positional decoder (day 5 and day 7)
  // ---------------------------------------------------------------------

  /** A source operand: the literal when its mode digit is 1, otherwise a position. */
  function Resolve(mem: seq<int>, immediate: bool, x: int): Result<int, Fault>
  {
    if immediate then Ok(x) else Read(mem, x)
  }

  /** The three raw words after the opcode are read first, then the two sources resolved. */
  function Operands3(mem: seq<int>, pc: int): Result<(int, int, int), Fault>
    requires 0 <= pc < |mem|
  {
    var a :- Read(mem, pc + 1); var b :- Read(mem, pc + 2); var out :- Read(mem, pc + 3);
    var va :- Resolve(mem, Mode(mem[pc], 1) == 1, a);
    var vb :- Resolve(mem, Mode(mem[pc], 2) == 1, b);
    Ok((va, vb, out))
  }

  function Operands2(mem: seq<int>, pc: int): Result<(int, int), Fault>
    requires 0 <= pc < |mem|
  {
    var a :- Read(mem, pc + 1); var b :- Read(mem, pc + 2);
    var va :- Resolve(mem, Mode(mem[pc], 1) == 1, a);
    var vb :- Resolve(mem, Mode(mem[pc], 2) == 1, b);
    Ok((va, vb))
  }

  function DecodePositional(mem: seq<int>, pc: int): Result<Instr, Fault>
  {
    if !(0 <= pc < |mem|) then Err(BadAddress(pc))
    else
      match Opcode(mem[pc])
      case 1 => var o :- Operands3(mem, pc); Ok(Add(o.0, o.1, o.2))
      case 2 => var o :- Operands3(mem, pc); Ok(Mul(o.0, o.1, o.2))
      case 3 => var out :- Read(mem, pc + 1); Ok(Inp(out))
      case 4 =>
        var a :- Read(mem, pc + 1);
        var va :- Resolve(mem, Mode(mem[pc], 1) == 1, a);
        Ok(Out(va))
      case 5 => var o :- Operands2(mem, pc); Ok(Jnz(o.0, o.1))
      case 6 => var o :- Operands2(mem, pc); Ok(Jz(o.0, o.1))
      case 7 => var o :- Operands3(mem, pc); Ok(Lt(o.0, o.1, o.2))
      case 8 => var o :- Operands3(mem, pc); Ok(Eq(o.0, o.1, o.2))
      case 99 => Ok(Hlt)
      case code => Err(UnknownOpcode(code))
  }

  // ---------------------------------------------------------------------
  // Executing one decoded instruction
  // ---------------------------------------------------------------------

  /** `mem[out] = v` followed by `pc += width`; an index outside memory panics. */
  function Store(c: Core, out: int, v: int, width: int): Event<Core>
  {
    if 0 <= out < |c.mem| then Continue(c.(pc := c.pc + width, mem := c.mem[out := v]))
    else Crash(BadAddress(out))
  }

  /** The effect of one instruction. `input` is the value an input
      instruction would read, `None` when the machine has none to give. */
  function Exec(c: Core, ins: Instr, input: Option<int>): Event<Core>
  {
    match ins
    case Add(a, b, out) => Store(c, out, a + b, 4)
    case Mul(a, b, out) => Store(c, out, a * b, 4)
    case Inp(out) => if input.None? then Crash(InputUnderflow) else Store(c, out, input.value, 2)
    case Out(a) => Emitted(a, c.(pc := c.pc + 2))
    case Jnz(a, t) => Continue(c.(pc := if a != 0 then t else c.pc + 3))
    case Jz(a, t) => Continue(c.(pc := if a == 0 then t else c.pc + 3))
    case Lt(a, b, out) => Store(c, out, if a < b then 1 else 0, 4)
    case Eq(a, b, out) => Store(c, out, if a == b then 1 else 0, 4)
    case Rbo(a) => Continue(c.(pc := c.pc + 2, rb := c.rb + a))
    case Hlt => Halt
  }

  // ---------------------------------------------------------------------
  // Properties of the instruction words and of the decoders
  // ---------------------------------------------------------------------

  /** The addressing modes as an assembler writes them. */
  datatype AddrMode = Position | Immediate | Relative

  function Digit(m: AddrMode): int
  {
    match m
    case Position => 0
    case Immediate => 1
    case Relative => 2
  }

  /** What a source operand `p` in mode `m` denotes. */
  function Fetch(mem: seq<int>, rb: int, m: AddrMode, p: int): Result<int, Fault>
  {
    match m
    case Immediate => Ok(p)
    case Position => if 0 <= p < |mem| then Ok(mem[p]) else Err(BadAddress(p))
    case Relative => if 0 <= rb + p < |mem| then Ok(mem[rb + p]) else Err(BadAddress(rb + p))
  }

  /** What a destination operand `p` in mode `m` denotes. */
  function Target(rb: int, m: AddrMode, p: int): Result<int, Fault>
  {
    match m
    case Immediate => Err(ImmediateDestination)
    case Position => Ok(p)
    case Relative => Ok(rb + p)
  }

  lemma Scales()
    ensures 10 * Pow10(1) == 100 && 10 * Pow10(2) == 1000 && 10 * Pow10(3) == 10000
  {
  }

  /** Encoding an opcode and three mode digits and reading them back gives them back. */
  lemma {:induction false} WordRoundTrip(op: int, m1: int, m2: int, m3: int)
    requires 0 <= op < 100 && 0 <= m1 <= 9 && 0 <= m2 <= 9 && 0 <= m3 <= 9
    ensures Opcode(Word(op, m1, m2, m3)) == op
    ensures Mode(Word(op, m1, m2, m3), 1) == m1
    ensures Mode(Word(op, m1, m2, m3), 2) == m2
    ensures Mode(Word(op, m1, m2, m3), 3) == m3
  {
    var w := Word(op, m1, m2, m3);
    Scales();
    assert w / 100 == m1 + 10 * m2 + 100 * m3 && w % 100 == op;
    assert w / 1000 == m2 + 10 * m3;
    assert w / 10000 == m3;
    assert (m1 + 10 * m2 + 100 * m3) % 10 == m1;
    assert (m2 + 10 * m3) % 10 == m2;
    NonNegativeAgrees(w, 100);
    NonNegativeAgrees(w, 1000);
    NonNegativeAgrees(w, 10000);
    NonNegativeAgrees(w / 100, 10);
    NonNegativeAgrees(w / 1000, 10);
    NonNegativeAgrees(w / 10000, 10);
  }

  /** The same, for a word given by its value. */
  lemma WordFields(w: int, op: int, m1: int, m2: int, m3: int)
    requires 0 <= op < 100 && 0 <= m1 <= 9 && 0 <= m2 <= 9 && 0 <= m3 <= 9
    requires w == Word(op, m1, m2, m3)
    ensures Opcode(w) == op && Mode(w, 1) == m1 && Mode(w, 2) == m2 && Mode(w, 3) == m3
  {
    WordRoundTrip(op, m1, m2, m3);
  }

  /** The halt instruction `99` is opcode 99. */
  lemma HaltWord() ensures Opcode(99) == 99 { WordFields(99, 99, 0, 0, 0); }

  /** Conversely every non-negative word below 100000 is the encoding of
      its own opcode and mode digits. */
  lemma {:induction false} WordDecomposes(w: int)
    requires 0 <= w < 100000
    ensures 0 <= Opcode(w) < 100
    ensures 0 <= Mode(w, 1) <= 9 && 0 <= Mode(w, 2) <= 9 && 0 <= Mode(w, 3) <= 9
    ensures w == Word(Opcode(w), Mode(w, 1), Mode(w, 2), Mode(w, 3))
  {
    var q1, op := w / 100, w % 100;
    var q2, m1 := q1 / 10, q1 % 10;
    var m3, m2 := q2 / 10, q2 % 10;
    assert w == q1 * 100 + op;
    assert q1 == q2 * 10 + m1;
    assert q2 == m3 * 10 + m2;
    assert m3 < 10;
    assert w == Word(op, m1, m2, m3);
    WordRoundTrip(op, m1, m2, m3);
  }

  /** A negative word is never a known instruction: its truncated opcode is not positive. */
  lemma NegativeWordUnknown(w: int)
    requires w < 0
    ensures Opcode(w) <= 0
    ensures !KnownRelative(Opcode(w)) && !KnownPositional(Opcode(w))
  {
    NegativeRem(w, 100);
  }

  /** The relative decoder reports an unknown opcode exactly when the
      fetched word's opcode is not one of 1..9 and 99, and names that opcode. */
  lemma RelativeUnknownIff(mem: seq<int>, pc: int, rb: int)
    ensures (DecodeRelative(mem, pc, rb).Err? && DecodeRelative(mem, pc, rb).error.UnknownOpcode?)
            <==> (0 <= pc < |mem| && !KnownRelative(Opcode(mem[pc])))
    ensures 0 <= pc < |mem| && !KnownRelative(Opcode(mem[pc]))
            ==> DecodeRelative(mem, pc, rb) == Err(UnknownOpcode(Opcode(mem[pc])))
  {
  }

  /** The positional decoder reports an unknown opcode exactly when the
      fetched word's opcode is not one of 1..8 and 99; in particular 9 is unknown. */
  lemma PositionalUnknownIff(mem: seq<int>, pc: int)
    ensures (DecodePositional(mem, pc).Err? && DecodePositional(mem, pc).error.UnknownOpcode?)
            <==> (0 <= pc < |mem| && !KnownPositional(Opcode(mem[pc])))
    ensures 0 <= pc < |mem| && !KnownPositional(Opcode(mem[pc]))
            ==> DecodePositional(mem, pc) == Err(UnknownOpcode(Opcode(mem[pc])))
    ensures !DecodePositional(mem, pc).Ok? || !DecodePositional(mem, pc).value.Rbo?
  {
  }

  lemma ParamByMode(mem: seq<int>, pc: int, rb: int, n: nat, m: AddrMode)
    requires 0 <= pc && pc + n < |mem| && 1 <= n <= 3
    requires Mode(mem[pc], n) == Digit(m)
    ensures Param(mem, pc, rb, n) == Fetch(mem, rb, m, mem[pc + n])
    ensures Dest(mem, pc, rb, n) == Target(rb, m, mem[pc + n])
  {
  }

  /** The three-operand instructions (add, multiply, less-than, equals)
      decode by the addressing-mode table: each source operand is fetched
      by its own mode digit and the destination resolved by the third,
      so an immediate destination is refused. */
  lemma RelativeModes3(mem: seq<int>, pc: int, rb: int, op: int, m1: AddrMode, m2: AddrMode, m3: AddrMode)
    requires op == 1 || op == 2 || op == 7 || op == 8
    requires 0 <= pc && pc + 3 < |mem|
    requires Opcode(mem[pc]) == op
    requires Mode(mem[pc], 1) == Digit(m1) && Mode(mem[pc], 2) == Digit(m2) && Mode(mem[pc], 3) == Digit(m3)
    ensures var d := DecodeRelative(mem, pc, rb);
      var a, b, out := Fetch(mem, rb, m1, mem[pc + 1]), Fetch(mem, rb, m2, mem[pc + 2]), Target(rb, m3, mem[pc + 3]);
      if a.Err? then d == Err(a.error)
      else if b.Err? then d == Err(b.error)
      else if out.Err? then d == Err(out.error)
      else d == Ok(if op == 1 then Add(a.value, b.value, out.value)
                   else if op == 2 then Mul(a.value, b.value, out.value)
                   else if op == 7 then Lt(a.value, b.value, out.value)
                   else Eq(a.value, b.value, out.value))
  {
    ParamByMode(mem, pc, rb, 1, m1);
    ParamByMode(mem, pc, rb, 2, m2);
    ParamByMode(mem, pc, rb, 3, m3);
  }

  /** The remaining instructions decode by the same table: input takes a
      destination, output and base-adjust one source, the jumps two sources. */
  lemma RelativeModes12(mem: seq<int>, pc: int, rb: int, op: int, m1: AddrMode, m2: AddrMode)
    requires 3 <= op <= 6 || op == 9
    requires 0 <= pc && pc + 2 < |mem|
    requires Opcode(mem[pc]) == op && Mode(mem[pc], 1) == Digit(m1) && Mode(mem[pc], 2) == Digit(m2)
    ensures var d := DecodeRelative(mem, pc, rb);
      var a, b, out := Fetch(mem, rb, m1, mem[pc + 1]), Fetch(mem, rb, m2, mem[pc + 2]), Target(rb, m1, mem[pc + 1]);
      if op == 3 then d == (if out.Err? then Err(out.error) else Ok(Inp(out.value)))
      else if a.Err? then d == Err(a.error)
      else if op == 4 then d == Ok(Out(a.value))
      else if op == 9 then d == Ok(Rbo(a.value))
      else if b.Err? then d == Err(b.error)
      else d == Ok(if op == 5 then Jnz(a.value, b.value) else Jz(a.value, b.value))
  {
    ParamByMode(mem, pc, rb, 1, m1);
    ParamByMode(mem, pc, rb, 2, m2);
  }

  /** The positional decoder reads a source as a literal only for mode
      digit 1 and as a position for every other digit (2 included), and it
      takes every destination as the raw word whatever its mode digit. */
  lemma PositionalModes3(mem: seq<int>, pc: int, op: int, m1: int, m2: int)
    requires op == 1 || op == 2 || op == 7 || op == 8
    requires 0 <= pc && pc + 3 < |mem|
    requires Opcode(mem[pc]) == op && Mode(mem[pc], 1) == m1 && Mode(mem[pc], 2) == m2
    ensures var d := DecodePositional(mem, pc);
      var a := Fetch(mem, 0, if m1 == 1 then Immediate else Position, mem[pc + 1]);
      var b := Fetch(mem, 0, if m2 == 1 then Immediate else Position, mem[pc + 2]);
      var out := mem[pc + 3];
      if a.Err? then d == Err(a.error)
      else if b.Err? then d == Err(b.error)
      else d == Ok(if op == 1 then Add(a.value, b.value, out)
                   else if op == 2 then Mul(a.value, b.value, out)
                   else if op == 7 then Lt(a.value, b.value, out)
                   else Eq(a.value, b.value, out))
  {
  }

  /** With modes 0 and 1 only, a zero digit on every destination and no
      base adjust, the relative decoder agrees with the positional one: day 9 extends day 7. */
  lemma RelativeExtendsPositional(mem: seq<int>, pc: int, rb: int)
    requires 0 <= pc && pc + 3 < |mem|
    requires KnownPositional(Opcode(mem[pc]))
    requires 0 <= Mode(mem[pc], 1) <= 1 && 0 <= Mode(mem[pc], 2) <= 1 && Mode(mem[pc], 3) == 0
    requires Opcode(mem[pc]) == 3 ==> Mode(mem[pc], 1) == 0
    requires DecodePositional(mem, pc).Ok?
    ensures DecodeRelative(mem, pc, rb) == DecodePositional(mem, pc)
  {
    var w := mem[pc];
    ParamByMode(mem, pc, rb, 1, if Mode(w, 1) == 1 then Immediate else Position);
    ParamByMode(mem, pc, rb, 2, if Mode(w, 2) == 1 then Immediate else Position);
    ParamByMode(mem, pc, rb, 3, Position);
    var code := Opcode(w);
    if code == 1 || code == 2 || code == 7 || code == 8 {
      assert Operands3(mem, pc).Ok?;
    } else if code == 5 || code == 6 {
      assert Operands2(mem, pc).Ok?;
    }
  }

  /** Instruction widths: how far a non-jumping instruction moves the program counter. */
  function Width(ins: Instr): nat
  {
    match ins
    case Add(_, _, _) => 4
    case Mul(_, _, _) => 4
    case Lt(_, _, _) => 4
    case Eq(_, _, _) => 4
    case Inp(_) => 2
    case Out(_) => 2
    case Rbo(_) => 2
    case Jnz(_, _) => 3
    case Jz(_, _) => 3
    case Hlt => 1
  }

  predicate Writes(ins: Instr) { ins.Add? || ins.Mul? || ins.Lt? || ins.Eq? || ins.Inp? }

  /** One instruction changes at most its destination cell, never the size
      of memory; only base-adjust moves the base; the program counter moves
      by the instruction's width, or to the target of a taken jump. */
  lemma ExecFrame(c: Core, ins: Instr, input: Option<int>)
    ensures var e := Exec(c, ins, input);
      (e.Continue? || e.Emitted?) ==>
        && |e.next.mem| == |c.mem|
        && (forall i :: 0 <= i < |c.mem| && !(Writes(ins) && i == ins.out) ==> e.next.mem[i] == c.mem[i])
        && (Writes(ins) ==> e.next.mem[ins.out] == (match ins
              case Add(a, b, _) => a + b
              case Mul(a, b, _) => a * b
              case Lt(a, b, _) => if a < b then 1 else 0
              case Eq(a, b, _) => if a == b then 1 else 0
              case _ => input.value))
        && e.next.rb == (if ins.Rbo? then c.rb + ins.a else c.rb)
        && e.next.pc == (if ins.Jnz? && ins.a != 0 then ins.target
                         else if ins.Jz? && ins.a == 0 then ins.target
                         else c.pc + Width(ins))
    ensures Exec(c, ins, input).Emitted? <==> ins.Out?
    ensures Exec(c, ins, input).Halt? <==> ins.Hlt?
    ensures Exec(c, ins, input).Crash? <==>
      (Writes(ins) && !(0 <= ins.out < |c.mem|)) || (ins.Inp? && input.None?)
  {
  }
}
