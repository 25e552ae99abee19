/** The day-7 machine and the amplifier chain. The machine uses the
    positional decoder, an unpadded copy of the program as memory and an
    input stack: an input instruction pops the last element and `FeedInput`
    pushes onto the end. */
module Day07 {
  import opened Wrappers
  import opened Intcode
  import opened Driver

  /** The relative base of the shared core stays 0: the positional decoder has no base adjust. */
  datatype Machine = Machine(core: Core, inputs: seq<int>)

  function Initial(program: seq<int>, buffer: seq<int>): Machine
  {
    Machine(Core(0, program, 0), buffer)
  }

  /** One fetch-decode-execute step; an input instruction pops the top of the stack. */
  function Step(m: Machine): Event<Machine>
  {
    match DecodePositional(m.core.mem, m.core.pc)
    case Err(f) => Crash(f)
    case Ok(ins) => Effect(m, ins)
  }

  /** What the decoded instruction `ins` does to `m`. */
  function Effect(m: Machine, ins: Instr): Event<Machine>
  {
    var q := m.inputs;
    match Exec(m.core, ins, if |q| > 0 then Some(q[|q| - 1]) else None)
    case Continue(c) => Continue(Machine(c, if ins.Inp? then q[..|q| - 1] else q))
    case Emitted(v, c) => Emitted(v, Machine(c, q))
    case Halt => Halt
    case Crash(f) => Crash(f)
  }

  class IntCodeVM {
    var pc: int
    const mem: array<int>
    var inputs: seq<int>

    function State(): Machine
      reads this, mem
    {
      Machine(Core(pc, mem[..], 0), inputs)
    }

    /** A copy of the program as memory and the buffer as the stack, its last element on top. */
    constructor (startingMemory: seq<int>, inputBuffer: seq<int>)
      ensures State() == Initial(startingMemory, inputBuffer)
      ensures fresh(mem)
    {
      pc := 0;
      mem := new int[|startingMemory|](i requires 0 <= i < |startingMemory| => startingMemory[i]);
      inputs := inputBuffer;
      new;
      assert mem[..] == startingMemory;
    }

    /** `run`: until an output (after moving past it), a halt, a panic, or
        until `fuel` instructions have been decoded. */
    method Run(fuel: nat) returns (y: Yield, left: nat)
      modifies this, mem
      ensures Driver.Run(y, State(), left) == Drive(Step, old(State()), fuel)
    {
      left := fuel;
      ghost var cur := State();
      y := OutOfFuel;
      while left > 0
        invariant cur == State()
        invariant Drive(Step, cur, left) == Drive(Step, old(State()), fuel)
        decreases left
      {
        var stop;
        ghost var next;
        stop, next := StepOnce();
        DriveStepped(Step, cur, next, stop, left);
        cur, left := next, left - 1;
        if stop.Some? {
          return stop.value, left;
        }
      }
    }

    /** One fetch-decode-execute step in place. */
    method StepOnce() returns (stop: Option<Yield>, ghost next: Machine)
      modifies this, mem
      ensures next == State()
      ensures Stepped(Step, old(State()), next, stop)
    {
      var d := DecodePositional(mem[..], pc);
      if d.Err? {
        assert Step(State()) == Crash(d.error);
        return Some(Crashed(d.error)), State();
      }
      PositionalUnknownIff(mem[..], pc);
      stop := Execute(d.value);
      next := State();
    }

    /** Executes one decoded instruction in place; `None` means execution goes on. */
    method Execute(ins: Instr) returns (stop: Option<Yield>)
      requires !ins.Rbo?
      modifies this, mem
      ensures Became(Effect(old(State()), ins), old(State()), State(), stop)
    {
      match ins
      case Add(a, b, out) =>
        stop := Write(out, a + b, 4);
      case Mul(a, b, out) =>
        stop := Write(out, a * b, 4);
      case Inp(out) =>
        if inputs == [] {
          stop := Some(Crashed(InputUnderflow));
        } else {
          var v := inputs[|inputs| - 1];
          stop := Write(out, v, 2);
          if stop.None? {
            inputs := inputs[..|inputs| - 1];
          }
        }
      case Out(a) =>
        pc := pc + 2;
        stop := Some(Output(a));
      case Jnz(a, b) =>
        pc := if a != 0 then b else pc + 3;
        stop := None;
      case Jz(a, b) =>
        pc := if a == 0 then b else pc + 3;
        stop := None;
      case Lt(a, b, out) =>
        stop := Write(out, if a < b then 1 else 0, 4);
      case Eq(a, b, out) =>
        stop := Write(out, if a == b then 1 else 0, 4);
      case Hlt =>
        stop := Some(Halted);
    }

    /** `mem[out] = v; pc += width`, or the panic of an index outside memory. */
    method Write(out: int, v: int, width: int) returns (stop: Option<Yield>)
      modifies this, mem
      ensures inputs == old(inputs)
      ensures match Intcode.Store(old(State()).core, out, v, width)
        case Continue(c) => stop == None && State().core == c
        case _ => stop == Some(Crashed(BadAddress(out))) && State() == old(State())
    {
      if !(0 <= out < mem.Length) {
        return Some(Crashed(BadAddress(out)));
      }
      mem[out] := v;
      pc := pc + width;
      stop := None;
    }

    /** Pushes onto the top of the stack. */
    method FeedInput(i: int)
      modifies this
      ensures State() == old(State()).(inputs := old(inputs) + [i])
    {
      inputs := inputs + [i];
    }
  }

  /** An input instruction takes the top of the stack, and panics on an empty one. */
  lemma InputPopsTop(m: Machine, out: int)
    requires DecodePositional(m.core.mem, m.core.pc) == Ok(Inp(out))
    ensures m.inputs == [] ==> Step(m) == Crash(InputUnderflow)
    ensures m.inputs != [] && 0 <= out < |m.core.mem| ==>
      var q := m.inputs;
      Step(m) == Continue(Machine(m.core.(pc := m.core.pc + 2, mem := m.core.mem[out := q[|q| - 1]]), q[..|q| - 1]))
  {
  }

  /** A fed value is the next one read, and the stack below it is as before. */
  lemma FedReadFirst(q: seq<int>, x: int)
    ensures var q' := q + [x]; q'[|q'| - 1] == x && q'[..|q'| - 1] == q
  {
  }

  /** A machine started with `[signal, phase]` reads the phase first and the signal second. */
  lemma PhaseThenSignal(signal: int, phase: int)
    ensures var q := Initial([], [signal, phase]).inputs;
      q[|q| - 1] == phase && var q' := q[..|q| - 1]; q'[|q'| - 1] == signal && q'[..|q'| - 1] == []
  {
  }

  /** The decoder has no relative-base instruction, so the base stays 0. */
  lemma BaseStaysZero(m: Machine, fuel: nat)
    requires m.core.rb == 0
    ensures Drive(Step, m, fuel).state.core.rb == 0
  {
    var inv := (t: Machine) => t.core.rb == 0;
    forall t: Machine
      ensures StepKeeps(Step, inv, t)
    {
      PositionalUnknownIff(t.core.mem, t.core.pc);
    }
    DriveKeeps(Step, inv, m, fuel);
  }

  // ---------------------------------------------------------------------
  // The amplifier chain
  // ---------------------------------------------------------------------

  /** Why the chain produced no signal: a machine panic, an amplifier that
      halted without output (the `unwrap` of `None`), or the fuel ran out. */
  datatype ChainFault = MachineFault(fault: Fault) | NoSignal | Exhausted

  /** Each amplifier is a fresh machine started with `[signal, phase]`; its
      first output is the next signal. Each run gets `fuel` instructions. */
  function Chain(program: seq<int>, phases: seq<int>, signal: int, fuel: nat): Result<int, ChainFault>
    decreases |phases|
  {
    if phases == [] then Ok(signal)
    else
      var r := Drive(Step, Initial(program, [signal, phases[0]]), fuel);
      match r.outcome
      case Output(v) => Chain(program, phases[1..], v, fuel)
      case Halted => Err(NoSignal)
      case Crashed(f) => Err(MachineFault(f))
      case OutOfFuel => Err(Exhausted)
  }

  /** The largest final signal over `perms`, starting from `best`; the first failing chain aborts. */
  function Best(program: seq<int>, perms: seq<seq<int>>, fuel: nat, best: int): Result<int, ChainFault>
    decreases |perms|
  {
    if perms == [] then Ok(best)
    else
      match Chain(program, perms[0], 0, fuel)
      case Err(e) => Err(e)
      case Ok(v) => Best(program, perms[1..], fuel, if v > best then v else best)
  }

  /** The inner loop of `main`: five fresh machines, signal 0 into the first. */
  method Amplify(program: seq<int>, phases: seq<int>, fuel: nat) returns (r: Result<int, ChainFault>)
    ensures r == Chain(program, phases, 0, fuel)
  {
    var nextInput := 0;
    var i := 0;
    while i < |phases|
      invariant 0 <= i <= |phases|
      invariant Chain(program, phases[i..], nextInput, fuel) == Chain(program, phases, 0, fuel)
    {
      assert phases[i..][1..] == phases[i + 1..];
      var vm := new IntCodeVM(program, [nextInput, phases[i]]);
      var y, _ := vm.Run(fuel);
      if !y.Output? {
        return if y.Halted? then Err(NoSignal)
               else if y.Crashed? then Err(MachineFault(y.fault))
               else Err(Exhausted);
      }
      nextInput := y.value;
      i := i + 1;
    }
    return Ok(nextInput);
  }

  /** Part one: the maximum over the phase permutations, starting from 0. */
  method MaxThrusterSignal(program: seq<int>, perms: seq<seq<int>>, fuel: nat) returns (r: Result<int, ChainFault>)
    ensures r == Best(program, perms, fuel, 0)
  {
    var part1 := 0;
    var i := 0;
    while i < |perms|
      invariant 0 <= i <= |perms|
      invariant Best(program, perms[i..], fuel, part1) == Best(program, perms, fuel, 0)
    {
      assert perms[i..][1..] == perms[i + 1..];
      var s := Amplify(program, perms[i], fuel);
      if s.Err? {
        return Err(s.error);
      }
      if s.value > part1 {
        part1 := s.value;
      }
      i := i + 1;
    }
    return Ok(part1);
  }

  /** The result is at least the starting value, at least every chain's
      signal, and it is either the starting value or one of the signals. */
  lemma {:induction false} BestIsMaximum(program: seq<int>, perms: seq<seq<int>>, fuel: nat, best: int)
    requires Best(program, perms, fuel, best).Ok?
    ensures var b := Best(program, perms, fuel, best).value;
      && b >= best
      && (forall i :: 0 <= i < |perms| ==> Chain(program, perms[i], 0, fuel).Ok? && Chain(program, perms[i], 0, fuel).value <= b)
      && (b == best || exists i :: 0 <= i < |perms| && Chain(program, perms[i], 0, fuel) == Ok(b))
    decreases |perms|
  {
    if perms != [] {
      var v := Chain(program, perms[0], 0, fuel).value;
      var best' := if v > best then v else best;
      BestIsMaximum(program, perms[1..], fuel, best');
      var b := Best(program, perms, fuel, best).value;
      forall i | 0 <= i < |perms|
        ensures Chain(program, perms[i], 0, fuel).Ok? && Chain(program, perms[i], 0, fuel).value <= b
      {
        if i > 0 {
          assert perms[i] == perms[1..][i - 1];
        }
      }
      if b != best' {
        var j :| 0 <= j < |perms[1..]| && Chain(program, perms[1..][j], 0, fuel) == Ok(b);
        assert perms[j + 1] == perms[1..][j];
      }
    }
  }

  /** The search fails exactly when some permutation's chain fails. */
  lemma {:induction false} BestFailsOnFirstFailure(program: seq<int>, perms: seq<seq<int>>, fuel: nat, best: int)
    ensures Best(program, perms, fuel, best).Err? <==>
      exists i :: 0 <= i < |perms| && Chain(program, perms[i], 0, fuel).Err?
    decreases |perms|
  {
    if perms != [] {
      BestFailsOnFirstFailure(program, perms[1..], fuel,
        if Chain(program, perms[0], 0, fuel).Ok? && Chain(program, perms[0], 0, fuel).value > best
        then Chain(program, perms[0], 0, fuel).value else best);
      if exists i :: 0 <= i < |perms[1..]| && Chain(program, perms[1..][i], 0, fuel).Err? {
        var i :| 0 <= i < |perms[1..]| && Chain(program, perms[1..][i], 0, fuel).Err?;
        assert perms[i + 1] == perms[1..][i];
      }
      if exists i :: 0 <= i < |perms| && Chain(program, perms[i], 0, fuel).Err? {
        var i :| 0 <= i < |perms| && Chain(program, perms[i], 0, fuel).Err?;
        if i > 0 {
          assert perms[1..][i - 1] == perms[i];
        }
      }
    }
  }
}
