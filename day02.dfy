/** The day-2 machine: whole-word opcodes 1 (add), 2 (multiply) and 99
    (halt), every operand a position, memory of unsigned words; and the
    search for the noun and verb that make the program produce 19690720. */
module Day02 {
  import opened Wrappers
  import opened Intcode

  datatype Machine = Machine(pc: nat, mem: seq<nat>)

  /** Why `calc` gave no result: a panic of the program, or the fuel ran out. */
  datatype CalcFault = MachineFault(fault: Fault) | Exhausted

  function Index(mem: seq<nat>, i: nat): Result<nat, Fault>
  {
    if i < |mem| then Ok(mem[i]) else Err(BadAddress(i))
  }

  /** One step: `Some` of the next machine, `None` at the halt. The three
      operand words are read first, then the two sources, then the target
      is written. */
  function Step(m: Machine): Result<Option<Machine>, Fault>
  {
    var word :- Index(m.mem, m.pc);
    if word == 1 || word == 2 then
      var a :- Index(m.mem, m.pc + 1);
      var b :- Index(m.mem, m.pc + 2);
      var out :- Index(m.mem, m.pc + 3);
      var x :- Index(m.mem, a);
      var y :- Index(m.mem, b);
      if out < |m.mem| then Ok(Some(Machine(m.pc + 4, m.mem[out := if word == 1 then x + y else x * y])))
      else Err(BadAddress(out))
    else if word == 99 then Ok(None)
    else Err(UnknownOpcode(word))
  }

  /** Steps until the halt, at most `fuel` times; the memory at the halt. */
  function Execute(m: Machine, fuel: nat): Result<seq<nat>, CalcFault>
    decreases fuel
  {
    if fuel == 0 then Err(Exhausted)
    else
      match Step(m)
      case Err(f) => Err(MachineFault(f))
      case Ok(None) => Ok(m.mem)
      case Ok(Some(n)) => Execute(n, fuel - 1)
  }

  /** `calc`: noun and verb into cells 1 and 2 of a copy of the program,
      run to the halt, cell 0 is the answer. */
  function Calc(a: nat, b: nat, program: seq<nat>, fuel: nat): Result<nat, CalcFault>
  {
    if |program| < 2 then Err(MachineFault(BadAddress(1)))
    else if |program| < 3 then Err(MachineFault(BadAddress(2)))
    else
      var mem :- Execute(Machine(0, program[1 := a][2 := b]), fuel);
      ExecuteKeepsSize(Machine(0, program[1 := a][2 := b]), fuel);
      Ok(mem[0])
  }

  /** A step never changes the size of memory. */
  lemma StepKeepsSize(m: Machine)
    ensures Step(m).Ok? && Step(m).value.Some? ==> |Step(m).value.value.mem| == |m.mem|
  {
  }

  lemma {:induction false} ExecuteKeepsSize(m: Machine, fuel: nat)
    ensures Execute(m, fuel).Ok? ==> |Execute(m, fuel).value| == |m.mem|
    decreases fuel
  {
    if fuel > 0 && Step(m).Ok? && Step(m).value.Some? {
      StepKeepsSize(m);
      ExecuteKeepsSize(Step(m).value.value, fuel - 1);
    }
  }

  /** Opcodes 1 and 2 store the sum or the product of the cells their
      first two operands point at, at the cell the third points at, and
      move on by four; nothing else changes. */
  lemma StepEffect(m: Machine)
    requires m.pc + 3 < |m.mem| && (m.mem[m.pc] == 1 || m.mem[m.pc] == 2)
    requires m.mem[m.pc + 1] < |m.mem| && m.mem[m.pc + 2] < |m.mem| && m.mem[m.pc + 3] < |m.mem|
    ensures var a, b, out := m.mem[m.pc + 1], m.mem[m.pc + 2], m.mem[m.pc + 3];
      var v := if m.mem[m.pc] == 1 then m.mem[a] + m.mem[b] else m.mem[a] * m.mem[b];
      && Step(m).Ok? && Step(m).value.Some?
      && Step(m).value.value.pc == m.pc + 4
      && Step(m).value.value.mem[out] == v
      && forall i :: 0 <= i < |m.mem| && i != out ==> Step(m).value.value.mem[i] == m.mem[i]
  {
  }

  /** Only 1, 2 and 99 are instructions; 99 halts without changing anything. */
  lemma StepOpcodes(m: Machine)
    requires m.pc < |m.mem|
    ensures m.mem[m.pc] == 99 <==> Step(m) == Ok(None)
    ensures m.mem[m.pc] !in {1, 2, 99} <==> Step(m) == Err(UnknownOpcode(m.mem[m.pc]))
  {
  }

  /** A run that reaches the halt begins with a step on 1, 2 or 99, and is
      that step followed by the rest of the run. */
  lemma ExecuteOk(m: Machine, fuel: nat)
    requires Execute(m, fuel).Ok?
    ensures fuel > 0 && m.pc < |m.mem| && m.mem[m.pc] in {1, 2, 99} && Step(m).Ok?
    ensures Step(m).value.None? ==> Execute(m, fuel).value == m.mem
    ensures Step(m).value.Some? ==> Execute(m, fuel) == Execute(Step(m).value.value, fuel - 1)
  {
    StepOpcodes(m);
  }

  /** One step of a run with fuel left. */
  lemma ExecuteUnfold(m: Machine, fuel: nat)
    requires fuel > 0
    ensures Step(m).Err? ==> Execute(m, fuel) == Err(MachineFault(Step(m).error))
    ensures Step(m) == Ok(None) ==> Execute(m, fuel) == Ok(m.mem)
    ensures Step(m).Ok? && Step(m).value.Some? ==> Execute(m, fuel) == Execute(Step(m).value.value, fuel - 1)
  {
  }

  /** `calc` as the program runs it, on a copy it owns. */
  method CalcRun(a: nat, b: nat, program: seq<nat>, fuel: nat) returns (r: Result<nat, CalcFault>)
    ensures r == Calc(a, b, program, fuel)
  {
    if |program| < 2 {
      return Err(MachineFault(BadAddress(1)));
    } else if |program| < 3 {
      return Err(MachineFault(BadAddress(2)));
    }
    var memory := new nat[|program|](i requires 0 <= i < |program| => program[i]);
    memory[1] := a;
    memory[2] := b;
    assert memory[..] == program[1 := a][2 := b];
    var e := ExecuteInPlace(memory, fuel);
    if e.Err? {
      return Err(e.error);
    }
    ExecuteKeepsSize(Machine(0, program[1 := a][2 := b]), fuel);
    return Ok(memory[0]);
  }

  /** The loop of `calc`: steps `memory` in place from address 0 until the
      halt, a panic, or `fuel` steps; at the halt `memory` is what the run
      leaves. */
  method ExecuteInPlace(memory: array<nat>, fuel: nat) returns (r: Result<(), CalcFault>)
    modifies memory
    ensures var e := Execute(Machine(0, old(memory[..])), fuel);
      match e
      case Ok(mem) => r.Ok? && memory[..] == mem
      case Err(f) => r == Err(f)
  {
    var pc: nat := 0;
    var left := fuel;
    ghost var start := Machine(0, memory[..]);
    while left > 0
      invariant Execute(Machine(pc, memory[..]), left) == Execute(start, fuel)
      decreases left
    {
      ghost var cur := Machine(pc, memory[..]);
      var s := StepInPlace(memory, pc);
      ExecuteUnfold(cur, left);
      match s
      case Err(f) =>
        return Err(MachineFault(f));
      case Ok(None) =>
        return Ok(());
      case Ok(Some(next)) =>
        pc, left := next, left - 1;
    }
    return Err(Exhausted);
  }

  /** One step on `memory` in place: the next program counter, `None` at the halt. */
  method StepInPlace(memory: array<nat>, pc: nat) returns (r: Result<Option<nat>, Fault>)
    modifies memory
    ensures match Step(Machine(pc, old(memory[..])))
      case Err(f) => r == Err(f) && memory[..] == old(memory[..])
      case Ok(None) => r == Ok(None) && memory[..] == old(memory[..])
      case Ok(Some(n)) => r == Ok(Some(n.pc)) && memory[..] == n.mem
  {
    if pc >= memory.Length {
      return Err(BadAddress(pc));
    }
    var word := memory[pc];
    if word == 1 || word == 2 {
      if pc + 1 >= memory.Length { return Err(BadAddress(pc + 1)); }
      if pc + 2 >= memory.Length { return Err(BadAddress(pc + 2)); }
      if pc + 3 >= memory.Length { return Err(BadAddress(pc + 3)); }
      var a, b, out := memory[pc + 1], memory[pc + 2], memory[pc + 3];
      if a >= memory.Length { return Err(BadAddress(a)); }
      if b >= memory.Length { return Err(BadAddress(b)); }
      if out >= memory.Length { return Err(BadAddress(out)); }
      memory[out] := if word == 1 then memory[a] + memory[b] else memory[a] * memory[b];
      return Ok(Some(pc + 4));
    } else if word == 99 {
      return Ok(None);
    }
    return Err(UnknownOpcode(word));
  }

  // ---------------------------------------------------------------------
  // The noun/verb search
  // ---------------------------------------------------------------------

  const Target: nat := 19690720

  /** Every candidate's `calc`: noun `a` and verb `b`. */
  function Attempts(program: seq<nat>, fuel: nat): (nat, nat) -> Result<nat, CalcFault>
  {
    (a, b) => Calc(a, b, program, fuel)
  }

  /** Noun `a'` with verb `b'` is tried before noun `a` with verb `b`:
      noun-major, each from 0 to 99. */
  predicate Before(a': nat, b': nat, a: nat, b: nat)
  {
    a' < a || (a' == a && b' < b)
  }

  /** The candidate ran and did not give the target. */
  predicate Missed(attempt: (nat, nat) -> Result<nat, CalcFault>, a: nat, b: nat)
  {
    attempt(a, b).Ok? && attempt(a, b).value != Target
  }

  /** The search from noun `a` and verb `b` on, in the order of the nested
      loops; the answer is `100 * noun + verb`. A panicking `calc` aborts the
      search. What a candidate gives is `attempt`, so that the search is
      stated apart from the machine. */
  function Search(attempt: (nat, nat) -> Result<nat, CalcFault>, a: nat, b: nat): Result<Option<nat>, CalcFault>
    decreases 100 - a, 100 - b
  {
    if a > 99 then Ok(None)
    else if b > 99 then Search(attempt, a + 1, 0)
    else
      match attempt(a, b)
      case Err(e) => Err(e)
      case Ok(v) => if v == Target then Ok(Some(100 * a + b)) else Search(attempt, a, b + 1)
  }

  /** The nested loops of `main` with their labelled break. */
  method FindNounVerb(program: seq<nat>, fuel: nat) returns (r: Result<Option<nat>, CalcFault>)
    ensures r == Search(Attempts(program, fuel), 0, 0)
  {
    ghost var attempt := Attempts(program, fuel);
    var a := 0;
    while a <= 99
      invariant 0 <= a <= 100
      invariant Search(attempt, a, 0) == Search(attempt, 0, 0)
    {
      var b := 0;
      while b <= 99
        invariant 0 <= b <= 100
        invariant Search(attempt, a, b) == Search(attempt, 0, 0)
      {
        var v := CalcRun(a, b, program, fuel);
        SearchAt(attempt, a, b, v);
        if v.Err? {
          return Err(v.error);
        }
        if v.value == Target {
          return Ok(Some(100 * a + b));
        }
        b := b + 1;
      }
      SearchAt(attempt, a, b, Ok(0));
      a := a + 1;
    }
    return Ok(None);
  }

  /** Where the search goes from noun `a` and verb `b`, whose `calc` gives
      `v`: past the last verb to the next noun; otherwise it aborts on a
      panic, stops on the target, and hands on to the next verb on a miss. */
  lemma SearchAt(attempt: (nat, nat) -> Result<nat, CalcFault>, a: nat, b: nat, v: Result<nat, CalcFault>)
    requires a <= 99 && b <= 100
    requires b < 100 ==> attempt(a, b) == v
    ensures b == 100 ==> Search(attempt, a, b) == Search(attempt, a + 1, 0)
    ensures b < 100 && v.Err? ==> Search(attempt, a, b) == Err(v.error)
    ensures b < 100 && v == Ok(Target) ==> Search(attempt, a, b) == Ok(Some(100 * a + b))
    ensures b < 100 && v.Ok? && v.value != Target ==> Search(attempt, a, b) == Search(attempt, a, b + 1)
  {
  }

  /** The answer is `100 * noun + verb` for the first candidate in search
      order whose `calc` gives 19690720, every earlier one having run and
      missed; none is reported only when every candidate runs and misses; a
      panic is that of the first candidate that did not run and miss. */
  lemma {:induction false} SearchFindsFirst(attempt: (nat, nat) -> Result<nat, CalcFault>, a: nat, b: nat)
    requires b <= 100
    ensures Search(attempt, a, b).Ok? && Search(attempt, a, b).value.Some? ==>
      exists n: nat, v: nat :: n < 100 && v < 100 && !Before(n, v, a, b)
        && Search(attempt, a, b).value.value == 100 * n + v
        && attempt(n, v) == Ok(Target)
        && forall n': nat, v': nat :: v' < 100 && !Before(n', v', a, b) && Before(n', v', n, v) ==> Missed(attempt, n', v')
    ensures Search(attempt, a, b) == Ok(None) ==>
      forall n: nat, v: nat :: n < 100 && v < 100 && !Before(n, v, a, b) ==> Missed(attempt, n, v)
    ensures Search(attempt, a, b).Err? ==>
      exists n: nat, v: nat :: n < 100 && v < 100 && !Before(n, v, a, b)
        && attempt(n, v) == Err(Search(attempt, a, b).error)
        && forall n': nat, v': nat :: v' < 100 && !Before(n', v', a, b) && Before(n', v', n, v) ==> Missed(attempt, n', v')
    decreases 100 - a, 100 - b
  {
    if a <= 99 {
      if b > 99 {
        SearchFindsFirst(attempt, a + 1, 0);
      } else {
        SearchFindsFirst(attempt, a, b + 1);
      }
    }
  }
}
