/** The day-5 machine: the positional decoder, a copy of the program as
    memory, one fixed input value that every input instruction writes, and
    a run to the halt that collects every output. */
module Day05 {
  import opened Wrappers
  import opened Intcode
  import opened Driver

  /** The relative base of the shared core stays 0: the positional decoder has no base adjust. */
  datatype Machine = Machine(core: Core, fixInput: int)

  function Initial(program: seq<int>, fixInput: int): Machine
  {
    Machine(Core(0, program, 0), fixInput)
  }

  /** One fetch-decode-execute step; an input instruction writes the fixed input. */
  function Step(m: Machine): Event<Machine>
  {
    match DecodePositional(m.core.mem, m.core.pc)
    case Err(f) => Crash(f)
    case Ok(ins) => Effect(m, ins)
  }

  /** What the decoded instruction `ins` does to `m`. */
  function Effect(m: Machine, ins: Instr): Event<Machine>
  {
    match Exec(m.core, ins, Some(m.fixInput))
    case Continue(c) => Continue(Machine(c, m.fixInput))
    case Emitted(v, c) => Emitted(v, Machine(c, m.fixInput))
    case Halt => Halt
    case Crash(f) => Crash(f)
  }

  /** A step is the effect of the instruction the program counter decodes to. */
  lemma StepDecoded(m: Machine, ins: Instr)
    requires DecodePositional(m.core.mem, m.core.pc) == Ok(ins)
    ensures Step(m) == Effect(m, ins)
  {
  }

  /** One fetch-decode-execute step on `memory` in place. */
  method StepAt(memory: array<int>, pc: int, fixInput: int, ghost cur: Machine)
    returns (next: int, stop: Option<Yield>, ghost after: Machine)
    requires cur == Machine(Core(pc, memory[..], 0), fixInput)
    modifies memory
    ensures after == Machine(Core(next, memory[..], 0), fixInput)
    ensures Stepped(Step, cur, after, stop)
  {
    var d := DecodePositional(memory[..], pc);
    if d.Err? {
      assert Step(cur) == Crash(d.error);
      return pc, Some(Crashed(d.error)), cur;
    }
    PositionalUnknownIff(memory[..], pc);
    next, stop := Execute(memory, pc, d.value, fixInput);
    after := Machine(Core(next, memory[..], 0), fixInput);
  }

  /** Executes one decoded instruction on `memory` in place, returning the
      next program counter, and the output or the stop of the step. */
  method Execute(memory: array<int>, pc: int, ins: Instr, fixInput: int)
    returns (next: int, stop: Option<Yield>)
    requires !ins.Rbo?
    modifies memory
    ensures var m := Machine(Core(pc, old(memory[..]), 0), fixInput);
      Became(Effect(m, ins), m, Machine(Core(next, memory[..], 0), fixInput), stop)
  {
    next, stop := pc, None;
    match ins
    case Add(a, b, dst) =>
      next, stop := Write(memory, pc, dst, a + b, 4);
    case Mul(a, b, dst) =>
      next, stop := Write(memory, pc, dst, a * b, 4);
    case Inp(dst) =>
      next, stop := Write(memory, pc, dst, fixInput, 2);
    case Out(a) =>
      next, stop := pc + 2, Some(Output(a));
    case Jnz(a, b) =>
      next := if a != 0 then b else pc + 3;
    case Jz(a, b) =>
      next := if a == 0 then b else pc + 3;
    case Lt(a, b, dst) =>
      next, stop := Write(memory, pc, dst, if a < b then 1 else 0, 4);
    case Eq(a, b, dst) =>
      next, stop := Write(memory, pc, dst, if a == b then 1 else 0, 4);
    case Hlt =>
      stop := Some(Halted);
  }

  /** `memory[dst] = v; pc += width`, or the panic of an index outside memory. */
  method Write(memory: array<int>, pc: int, dst: int, v: int, width: int) returns (next: int, stop: Option<Yield>)
    modifies memory
    ensures match Intcode.Store(Core(pc, old(memory[..]), 0), dst, v, width)
      case Continue(c) => stop == None && c == Core(next, memory[..], 0)
      case _ => stop == Some(Crashed(BadAddress(dst))) && next == pc && memory[..] == old(memory[..])
  {
    if !(0 <= dst < memory.Length) {
      return pc, Some(Crashed(BadAddress(dst)));
    }
    memory[dst] := v;
    next, stop := pc + width, None;
  }

  /** `run`: executes a copy of the program until the halt and returns every
      output in emission order, with how the run ended. */
  method Run(startingMemory: seq<int>, fixInput: int, fuel: nat) returns (output: seq<int>, end: Yield)
    ensures output == Collect(Step, Initial(startingMemory, fixInput), fuel).outs
    ensures end == Collect(Step, Initial(startingMemory, fixInput), fuel).end
  {
    var memory := new int[|startingMemory|](i requires 0 <= i < |startingMemory| => startingMemory[i]);
    assert memory[..] == startingMemory;
    output, end := RunOn(memory, fixInput, fuel);
  }

  /** The loop of `run` on the machine's own memory. */
  method RunOn(memory: array<int>, fixInput: int, fuel: nat) returns (output: seq<int>, end: Yield)
    modifies memory
    ensures var t := Collect(Step, Machine(Core(0, old(memory[..]), 0), fixInput), fuel);
      output == t.outs && end == t.end
  {
    var pc := 0;
    ghost var cur := Machine(Core(pc, memory[..], 0), fixInput);
    ghost var whole := Collect(Step, cur, fuel);
    output, end := [], OutOfFuel;
    var left := fuel;
    while left > 0
      invariant cur == Machine(Core(pc, memory[..], 0), fixInput)
      invariant whole == Prepend(output, Collect(Step, cur, left))
      decreases left
    {
      var done;
      ghost var after;
      pc, output, done, after := RunStep(memory, pc, fixInput, cur, whole, output, left);
      if done.Some? {
        return output, done.value;
      }
      left, cur := left - 1, after;
    }
  }

  /** One pass of the loop of `run`: a step, its output appended, or the
      end of the run when the step halts or panics. */
  method RunStep(memory: array<int>, pc: int, fixInput: int, ghost cur: Machine, ghost whole: Trace<Machine>, output: seq<int>, left: nat)
    returns (next: int, output': seq<int>, done: Option<Yield>, ghost after: Machine)
    requires left > 0 && cur == Machine(Core(pc, memory[..], 0), fixInput)
    requires whole == Prepend(output, Collect(Step, cur, left))
    modifies memory
    ensures after == Machine(Core(next, memory[..], 0), fixInput)
    ensures done.None? ==> whole == Prepend(output', Collect(Step, after, left - 1))
    ensures done.Some? ==> output' == whole.outs && done.value == whole.end
  {
    var stop;
    next, stop, after := StepAt(memory, pc, fixInput, cur);
    output', done := output, None;
    if stop.Some? && !stop.value.Output? {
      CollectStepped(Step, cur, after, stop, left);
      done := stop;
    } else {
      CollectAdvance(Step, whole, output, cur, after, stop, left);
      if stop.Some? {
        output' := output + [stop.value.value];
      }
    }
  }

  /** Every input instruction writes the same value, and running never changes it. */
  lemma InputIsFixed(m: Machine, fuel: nat)
    ensures Collect(Step, m, fuel).state.fixInput == m.fixInput
  {
    var inv := (t: Machine) => t.fixInput == m.fixInput;
    forall t: Machine
      ensures StepKeeps(Step, inv, t)
    {
    }
    CollectKeeps(Step, inv, m, fuel);
  }

  /** An input instruction writes the fixed value and moves on by two. */
  lemma InputWritesFixed(m: Machine, out: int)
    requires DecodePositional(m.core.mem, m.core.pc) == Ok(Inp(out))
    requires 0 <= out < |m.core.mem|
    ensures Step(m) == Continue(m.(core := m.core.(pc := m.core.pc + 2, mem := m.core.mem[out := m.fixInput])))
  {
  }
}
