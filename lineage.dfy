/** How the copies of the machine relate: the day-5 machine runs every
    day-2 program the way the day-2 machine does. */
module Lineage {
  import opened Wrappers
  import opened Intcode
  import opened Driver
  import Day02
  import Day05

  /** The day-5 view of a day-2 machine, with any fixed input. */
  function AsDay05(m: Day02.Machine, x: int): Day05.Machine
  {
    Day05.Machine(Core(m.pc, m.mem, 0), x)
  }

  /** The words 1 and 2 are the opcodes 1 and 2 with every operand a position. */
  lemma ArithWord(op: int)
    requires op == 1 || op == 2
    ensures Opcode(op) == op && Mode(op, 1) == 0 && Mode(op, 2) == 0
  {
    WordFields(op, op, 0, 0, 0);
  }

  /** The day-5 event that a day-2 step result stands for. */
  function Translate(r: Result<Option<Day02.Machine>, Fault>, x: int): Event<Day05.Machine>
  {
    match r
    case Err(f) => Crash(f)
    case Ok(None) => Halt
    case Ok(Some(n)) => Continue(AsDay05(n, x))
  }

  /** The two machines agree on what one step does. */
  predicate SameStep(m: Day02.Machine, x: int)
  {
    Day05.Step(AsDay05(m, x)) == Translate(Day02.Step(m), x)
  }

  /** An add (`op` 1) or multiply (`op` 2) at `m.pc`, written out: the three
      operand words, the two sources, the target, in that order. */
  function ArithStep(m: Day02.Machine, op: int): Result<Option<Day02.Machine>, Fault>
  {
    var mem, pc := m.mem, m.pc;
    if pc + 1 >= |mem| then Err(BadAddress(pc + 1))
    else if pc + 2 >= |mem| then Err(BadAddress(pc + 2))
    else if pc + 3 >= |mem| then Err(BadAddress(pc + 3))
    else if mem[pc + 1] >= |mem| then Err(BadAddress(mem[pc + 1]))
    else if mem[pc + 2] >= |mem| then Err(BadAddress(mem[pc + 2]))
    else if mem[pc + 3] >= |mem| then Err(BadAddress(mem[pc + 3]))
    else
      var x, y := mem[mem[pc + 1]], mem[mem[pc + 2]];
      Ok(Some(Day02.Machine(pc + 4, mem[mem[pc + 3] := if op == 1 then x + y else x * y])))
  }

  /** The day-2 machine steps an add or a multiply as written out. */
  lemma Day02Arith(m: Day02.Machine, op: int)
    requires op == 1 || op == 2
    requires m.pc < |m.mem| && m.mem[m.pc] == op
    ensures Day02.Step(m) == ArithStep(m, op)
  {
  }

  /** The day-5 machine steps a day-2 add or multiply as written out. */
  lemma Day05Arith(m: Day02.Machine, x: int, op: int)
    requires op == 1 || op == 2
    requires m.pc < |m.mem| && m.mem[m.pc] == op
    ensures Day05.Step(AsDay05(m, x)) == Translate(ArithStep(m, op), x)
  {
    var mem, pc := m.mem, m.pc;
    if pc + 3 >= |mem| {
      OperandsMissing(m, x, op);
    } else if mem[pc + 1] >= |mem| || mem[pc + 2] >= |mem| {
      SourceOutside(m, x, op);
    } else {
      SourcesInside(m, x, op);
    }
  }

  /** Add and multiply: the same operand reads in the same order, so the same
      panics, and the same write. */
  lemma ArithAgrees(m: Day02.Machine, x: int, op: int)
    requires op == 1 || op == 2
    requires m.pc < |m.mem| && m.mem[m.pc] == op
    ensures SameStep(m, x)
  {
    Day02Arith(m, op);
    Day05Arith(m, x, op);
  }

  /** An instruction cut short by the end of memory. */
  lemma OperandsMissing(m: Day02.Machine, x: int, op: int)
    requires op == 1 || op == 2
    requires m.pc < |m.mem| && m.mem[m.pc] == op && m.pc + 3 >= |m.mem|
    ensures Day05.Step(AsDay05(m, x)) == Translate(ArithStep(m, op), x)
  {
    var mem, pc := m.mem, m.pc;
    var bad := if pc + 1 >= |mem| then pc + 1 else if pc + 2 >= |mem| then pc + 2 else pc + 3;
    OperandsMissingDecodes(mem, pc, op);
    assert ArithStep(m, op) == Err(BadAddress(bad));
  }

  /** The day-5 decoder panics on the first operand word past the end of memory. */
  lemma OperandsMissingDecodes(mem: seq<int>, pc: int, op: int)
    requires op == 1 || op == 2
    requires 0 <= pc < |mem| && mem[pc] == op && pc + 3 >= |mem|
    ensures DecodePositional(mem, pc) ==
      Err(BadAddress(if pc + 1 >= |mem| then pc + 1 else if pc + 2 >= |mem| then pc + 2 else pc + 3))
  {
    ArithWord(op);
  }

  /** A source operand pointing outside memory. */
  lemma SourceOutside(m: Day02.Machine, x: int, op: int)
    requires op == 1 || op == 2
    requires m.pc + 3 < |m.mem| && m.mem[m.pc] == op
    requires m.mem[m.pc + 1] >= |m.mem| || m.mem[m.pc + 2] >= |m.mem|
    ensures Day05.Step(AsDay05(m, x)) == Translate(ArithStep(m, op), x)
  {
    var mem, pc := m.mem, m.pc;
    var bad := if mem[pc + 1] >= |mem| then mem[pc + 1] else mem[pc + 2];
    SourceOutsideDecodes(mem, pc, op);
    assert ArithStep(m, op) == Err(BadAddress(bad));
  }

  /** The day-5 decoder panics on the first source outside memory. */
  lemma SourceOutsideDecodes(mem: seq<int>, pc: int, op: int)
    requires op == 1 || op == 2
    requires 0 <= pc && pc + 3 < |mem| && mem[pc] == op
    requires 0 <= mem[pc + 1] && 0 <= mem[pc + 2]
    requires mem[pc + 1] >= |mem| || mem[pc + 2] >= |mem|
    ensures DecodePositional(mem, pc) == Err(BadAddress(if mem[pc + 1] >= |mem| then mem[pc + 1] else mem[pc + 2]))
  {
    ArithWord(op);
    PositionalModes3(mem, pc, op, 0, 0);
  }

  /** Both sources inside memory: the write, or the panic of a target outside it. */
  lemma SourcesInside(m: Day02.Machine, x: int, op: int)
    requires op == 1 || op == 2
    requires m.pc + 3 < |m.mem| && m.mem[m.pc] == op
    requires m.mem[m.pc + 1] < |m.mem| && m.mem[m.pc + 2] < |m.mem|
    ensures Day05.Step(AsDay05(m, x)) == Translate(ArithStep(m, op), x)
  {
    var mem, pc := m.mem, m.pc;
    var a, b, out := mem[pc + 1], mem[pc + 2], mem[pc + 3];
    var ins := if op == 1 then Add(mem[a], mem[b], out) else Mul(mem[a], mem[b], out);
    ArithDecodes(mem, pc, op);
    Day05.StepDecoded(AsDay05(m, x), ins);
    ArithEffect(m, x, op);
  }

  /** What the decoded add or multiply does on the day-5 machine. */
  lemma ArithEffect(m: Day02.Machine, x: int, op: int)
    requires op == 1 || op == 2
    requires m.pc + 3 < |m.mem|
    requires m.mem[m.pc + 1] < |m.mem| && m.mem[m.pc + 2] < |m.mem|
    ensures var mem, pc := m.mem, m.pc;
      var a, b, out := mem[pc + 1], mem[pc + 2], mem[pc + 3];
      var ins := if op == 1 then Add(mem[a], mem[b], out) else Mul(mem[a], mem[b], out);
      Day05.Effect(AsDay05(m, x), ins) == Translate(ArithStep(m, op), x)
  {
    var mem, pc := m.mem, m.pc;
    var a, b, out := mem[pc + 1], mem[pc + 2], mem[pc + 3];
    var v: nat := if op == 1 then mem[a] + mem[b] else mem[a] * mem[b];
    if out < |mem| {
      assert ArithStep(m, op) == Ok(Some(Day02.Machine(pc + 4, mem[out := v])));
    } else {
      assert ArithStep(m, op) == Err(BadAddress(out));
    }
  }

  /** The day-5 decoder reads a day-2 add or multiply with both sources inside memory. */
  lemma ArithDecodes(mem: seq<int>, pc: int, op: int)
    requires op == 1 || op == 2
    requires 0 <= pc && pc + 3 < |mem| && mem[pc] == op
    requires 0 <= mem[pc + 1] < |mem| && 0 <= mem[pc + 2] < |mem|
    ensures var a, b, out := mem[pc + 1], mem[pc + 2], mem[pc + 3];
      DecodePositional(mem, pc) == Ok(if op == 1 then Add(mem[a], mem[b], out) else Mul(mem[a], mem[b], out))
  {
    ArithWord(op);
    PositionalModes3(mem, pc, op, 0, 0);
  }

  lemma AddAgrees(m: Day02.Machine, x: int)
    requires m.pc < |m.mem| && m.mem[m.pc] == 1
    ensures SameStep(m, x)
  {
    ArithAgrees(m, x, 1);
  }

  lemma MulAgrees(m: Day02.Machine, x: int)
    requires m.pc < |m.mem| && m.mem[m.pc] == 2
    ensures SameStep(m, x)
  {
    ArithAgrees(m, x, 2);
  }

  lemma HaltAgrees(m: Day02.Machine, x: int)
    requires m.pc < |m.mem| && m.mem[m.pc] == 99
    ensures SameStep(m, x)
  {
    HaltWord();
    assert Day02.Step(m) == Ok(None);
    assert DecodePositional(m.mem, m.pc) == Ok(Hlt);
  }

  /** On the words 1, 2 and 99, and on a program counter outside memory,
      the two machines take the same step, panics included. */
  lemma StepAgrees(m: Day02.Machine, x: int)
    requires m.pc < |m.mem| ==> m.mem[m.pc] in {1, 2, 99}
    ensures SameStep(m, x)
  {
    if m.pc < |m.mem| {
      var w := m.mem[m.pc];
      if w == 1 {
        AddAgrees(m, x);
      } else if w == 2 {
        MulAgrees(m, x);
      } else {
        HaltAgrees(m, x);
      }
    } else {
      assert Day02.Step(m) == Err(BadAddress(m.pc));
      assert DecodePositional(m.mem, m.pc) == Err(BadAddress(m.pc));
    }
  }

  /** `t` is a run that halted with memory `mem` and printed nothing. */
  predicate HaltedWith(t: Trace<Day05.Machine>, mem: seq<int>)
  {
    t.outs == [] && t.end == Halted && t.state.core.mem == mem
  }

  /** A day-2 run that reaches the halt is a day-5 run that reaches it with
      the same memory and no output. */
  lemma {:induction false} ExecuteAgrees(m: Day02.Machine, x: int, fuel: nat)
    requires Day02.Execute(m, fuel).Ok?
    ensures HaltedWith(Collect(Day05.Step, AsDay05(m, x), fuel), Day02.Execute(m, fuel).value)
    decreases fuel
  {
    Day02.ExecuteOk(m, fuel);
    match Day02.Step(m)
    case Ok(None) =>
      HaltsTogether(m, x, fuel);
    case Ok(Some(n)) =>
      ExecuteAgrees(n, x, fuel - 1);
      ContinuesTogether(m, n, x, fuel);
  }

  /** The last step of a run: both machines halt on the same memory. */
  lemma HaltsTogether(m: Day02.Machine, x: int, fuel: nat)
    requires fuel > 0 && m.pc < |m.mem| && m.mem[m.pc] in {1, 2, 99}
    requires Day02.Step(m) == Ok(None) && Day02.Execute(m, fuel) == Ok(m.mem)
    ensures HaltedWith(Collect(Day05.Step, AsDay05(m, x), fuel), Day02.Execute(m, fuel).value)
  {
    StepAgrees(m, x);
    CollectStepped(Day05.Step, AsDay05(m, x), AsDay05(m, x), Some(Halted), fuel);
  }

  /** A step that continues: the rest of both runs start from the same machine. */
  lemma ContinuesTogether(m: Day02.Machine, n: Day02.Machine, x: int, fuel: nat)
    requires fuel > 0 && m.pc < |m.mem| && m.mem[m.pc] in {1, 2, 99}
    requires Day02.Step(m) == Ok(Some(n)) && Day02.Execute(m, fuel) == Day02.Execute(n, fuel - 1)
    requires Day02.Execute(n, fuel - 1).Ok?
    requires HaltedWith(Collect(Day05.Step, AsDay05(n, x), fuel - 1), Day02.Execute(n, fuel - 1).value)
    ensures HaltedWith(Collect(Day05.Step, AsDay05(m, x), fuel), Day02.Execute(m, fuel).value)
  {
    StepAgrees(m, x);
    CollectStepped(Day05.Step, AsDay05(m, x), AsDay05(n, x), None, fuel);
  }
}
