/** The day-9 IntCode machine: relative addressing and a relative-base
    register, memory padded with 4096 zero cells, and a double-ended input
    queue that is read from the back and fed at the front. */
module Day09 {
  import opened Wrappers
  import opened Intcode
  import opened Driver

  /** Zero cells appended after the program. */
  const Pad: nat := 4096

  datatype Machine = Machine(core: Core, inputs: seq<int>)

  function Initial(program: seq<int>, buffer: seq<int>): Machine
  {
    Machine(Core(0, program + Zeros(Pad), 0), buffer)
  }

  /** One fetch-decode-execute step; an input instruction reads the back of the queue. */
  function Step(m: Machine): Event<Machine>
  {
    match DecodeRelative(m.core.mem, m.core.pc, m.core.rb)
    case Err(f) => Crash(f)
    case Ok(ins) => Effect(m, ins)
  }

  /** What the decoded instruction `ins` does to `m`. */
  function Effect(m: Machine, ins: Instr): Event<Machine>
  {
    var q := m.inputs;
    match Exec(m.core, ins, if |q| > 0 then Some(q[|q| - 1]) else None)
    case Continue(c) => Continue(Machine(c, if ins.Inp? then q[..|q| - 1] else q))
    case Emitted(v, c) => Emitted(v, Machine(c, q))
    case Halt => Halt
    case Crash(f) => Crash(f)
  }

  class IntCodeVM {
    var pc: int
    const mem: array<int>
    var inputs: seq<int>
    var relativeBase: int

    function State(): Machine
      reads this, mem
    {
      Machine(Core(pc, mem[..], relativeBase), inputs)
    }

    /** The program followed by 4096 zeros; the buffer becomes the queue as given. */
    constructor (startingMemory: seq<int>, inputBuffer: seq<int>)
      ensures State() == Initial(startingMemory, inputBuffer)
      ensures fresh(mem)
    {
      var n := |startingMemory|;
      pc := 0;
      mem := new int[n + Pad](i requires 0 <= i < n + Pad => if i < n then startingMemory[i] else 0);
      inputs := inputBuffer;
      relativeBase := 0;
      new;
      assert mem[..] == startingMemory + Zeros(Pad);
    }

    /** Runs until an output (returned after the program counter has moved
        past it), a halt (the program counter stays on it), a panic, or
        until `fuel` instructions have been decoded. */
    method NextOutput(fuel: nat) returns (y: Yield, left: nat)
      modifies this, mem
      ensures Run(y, State(), left) == Drive(Step, old(State()), fuel)
    {
      left := fuel;
      ghost var cur := State();
      y := OutOfFuel;
      while left > 0
        invariant cur == State()
        invariant Drive(Step, cur, left) == Drive(Step, old(State()), fuel)
        decreases left
      {
        var stop;
        ghost var next;
        stop, next := StepOnce();
        DriveStepped(Step, cur, next, stop, left);
        cur, left := next, left - 1;
        if stop.Some? {
          return stop.value, left;
        }
      }
    }

    /** One fetch-decode-execute step in place. */
    method StepOnce() returns (stop: Option<Yield>, ghost next: Machine)
      modifies this, mem
      ensures next == State()
      ensures Stepped(Step, old(State()), next, stop)
    {
      var d := DecodeRelative(mem[..], pc, relativeBase);
      if d.Err? {
        assert Step(State()) == Crash(d.error);
        return Some(Crashed(d.error)), State();
      }
      stop := Execute(d.value);
      next := State();
    }

    /** Executes one decoded instruction in place. `None` means execution
        goes on; otherwise the value the run primitive returns. A panicking
        instruction changes nothing. */
    method Execute(ins: Instr) returns (stop: Option<Yield>)
      modifies this, mem
      ensures Became(Effect(old(State()), ins), old(State()), State(), stop)
    {
      match ins
      case Add(a, b, out) =>
        stop := Write(out, a + b, 4);
      case Mul(a, b, out) =>
        stop := Write(out, a * b, 4);
      case Inp(out) =>
        if inputs == [] {
          stop := Some(Crashed(InputUnderflow));
        } else {
          var v := inputs[|inputs| - 1];
          stop := Write(out, v, 2);
          if stop.None? {
            inputs := inputs[..|inputs| - 1];
          }
        }
      case Out(a) =>
        pc := pc + 2;
        stop := Some(Output(a));
      case Jnz(a, b) =>
        pc := if a != 0 then b else pc + 3;
        stop := None;
      case Jz(a, b) =>
        pc := if a == 0 then b else pc + 3;
        stop := None;
      case Lt(a, b, out) =>
        stop := Write(out, if a < b then 1 else 0, 4);
      case Eq(a, b, out) =>
        stop := Write(out, if a == b then 1 else 0, 4);
      case Rbo(a) =>
        relativeBase := relativeBase + a;
        pc := pc + 2;
        stop := None;
      case Hlt =>
        stop := Some(Halted);
    }

    /** `mem[out] = v; pc += width`, or the panic of an index outside memory. */
    method Write(out: int, v: int, width: int) returns (stop: Option<Yield>)
      modifies this, mem
      ensures inputs == old(inputs) && relativeBase == old(relativeBase)
      ensures match Intcode.Store(old(State()).core, out, v, width)
        case Continue(c) => stop == None && State().core == c
        case _ => stop == Some(Crashed(BadAddress(out))) && State() == old(State())
    {
      if !(0 <= out < mem.Length) {
        return Some(Crashed(BadAddress(out)));
      }
      mem[out] := v;
      pc := pc + width;
      stop := None;
    }

    /** Every output up to the halt, in emission order. */
    method CollectOutput(fuel: nat) returns (outs: seq<int>, stop: Yield, left: nat)
      modifies this, mem
      ensures Trace(outs, stop, State(), left) == Collect(Step, old(State()), fuel)
    {
      outs, left := [], fuel;
      ghost var cur := State();
      while true
        invariant cur == State()
        invariant Collect(Step, old(State()), fuel) == Prepend(outs, Collect(Step, cur, left))
        decreases left
      {
        CollectByDrive(Step, cur, left);
        var y, l := NextOutput(left);
        ghost var next := State();
        if !y.Output? {
          stop, left := y, l;
          return;
        }
        PrependTwice(outs, [y.value], Collect(Step, next, l));
        outs, left, cur := outs + [y.value], l, next;
      }
    }

    /** Pushes onto the front of the queue, the end read last. */
    method FeedInput(i: int)
      modifies this
      ensures State() == old(State()).(inputs := [i] + old(inputs))
    {
      inputs := [i] + inputs;
    }
  }

  // ---------------------------------------------------------------------
  // The input queue
  // ---------------------------------------------------------------------

  /** The order in which queued values will be read: back to front. */
  function Pending(q: seq<int>): (p: seq<int>)
    ensures |p| == |q|
  {
    if q == [] then [] else [q[|q| - 1]] + Pending(q[..|q| - 1])
  }

  /** The initial buffer is read last element first. */
  lemma {:induction false} PendingReversed(q: seq<int>, i: int)
    requires 0 <= i < |q|
    ensures Pending(q)[i] == q[|q| - 1 - i]
    decreases |q|
  {
    if i > 0 {
      PendingReversed(q[..|q| - 1], i - 1);
    }
  }

  /** A fed value is read after every value already queued. */
  lemma {:induction false} FedReadLast(q: seq<int>, x: int)
    ensures Pending([x] + q) == Pending(q) + [x]
    decreases |q|
  {
    if q != [] {
      assert ([x] + q)[..|q|] == [x] + q[..|q| - 1];
      FedReadLast(q[..|q| - 1], x);
    }
  }

  /** An input instruction writes the next pending value and drops it from
      the queue; with an empty queue it panics. */
  lemma InputReadsNextPending(m: Machine, out: int)
    requires DecodeRelative(m.core.mem, m.core.pc, m.core.rb) == Ok(Inp(out))
    ensures m.inputs == [] ==> Step(m) == Crash(InputUnderflow)
    ensures m.inputs != [] && 0 <= out < |m.core.mem| ==>
      && Step(m).Continue?
      && Step(m).next.core == m.core.(pc := m.core.pc + 2, mem := m.core.mem[out := Pending(m.inputs)[0]])
      && Pending(Step(m).next.inputs) == Pending(m.inputs)[1..]
  {
  }

  /** No other instruction touches the queue. */
  lemma OnlyInputConsumes(m: Machine)
    requires DecodeRelative(m.core.mem, m.core.pc, m.core.rb).Ok?
    requires !DecodeRelative(m.core.mem, m.core.pc, m.core.rb).value.Inp?
    ensures Step(m).Continue? || Step(m).Emitted? ==> Step(m).next.inputs == m.inputs
  {
  }

  // ---------------------------------------------------------------------
  // Memory
  // ---------------------------------------------------------------------

  /** Memory starts as the program followed by 4096 zero cells. */
  lemma InitialMemory(program: seq<int>, buffer: seq<int>)
    ensures var mem := Initial(program, buffer).core.mem;
      |mem| == |program| + 4096 && mem[..|program|] == program
      && forall i :: |program| <= i < |mem| ==> mem[i] == 0
  {
    var mem := Initial(program, buffer).core.mem;
    assert mem[..|program|] == program;
  }

  lemma StepKeepsSize(n: nat, m: Machine)
    ensures StepKeeps(Step, (t: Machine) => |t.core.mem| == n, m)
  {
    var d := DecodeRelative(m.core.mem, m.core.pc, m.core.rb);
    if d.Ok? {
      var q := m.inputs;
      ExecFrame(m.core, d.value, if |q| > 0 then Some(q[|q| - 1]) else None);
    }
  }

  /** Memory never grows: an address beyond the padding panics instead. */
  lemma MemorySizeKept(m: Machine, fuel: nat)
    ensures |Drive(Step, m, fuel).state.core.mem| == |m.core.mem|
    ensures |Collect(Step, m, fuel).state.core.mem| == |m.core.mem|
  {
    var n := |m.core.mem|;
    var inv := (t: Machine) => |t.core.mem| == n;
    forall t: Machine
      ensures StepKeeps(Step, inv, t)
    {
      StepKeepsSize(n, t);
    }
    DriveKeeps(Step, inv, m, fuel);
    CollectKeeps(Step, inv, m, fuel);
  }

  // ---------------------------------------------------------------------
  // The two example programs
  // ---------------------------------------------------------------------

  const LargeOutputProgram: seq<int> := [104, 1125899906842624, 99]

  /** A single immediate output of a 16-digit literal emits it unchanged, and the next call halts. */
  lemma LargeOutput(fuel: nat)
    requires fuel >= 2
    ensures var r := Drive(Step, Initial(LargeOutputProgram, []), fuel);
      r.outcome == Output(1125899906842624) && Drive(Step, r.state, r.left).outcome == Halted
  {
    var m := Initial(LargeOutputProgram, []);
    InitialMemory(LargeOutputProgram, []);
    assert m.core.mem[..3] == LargeOutputProgram;
    assert m == At(0, m.core.mem, 0);
    LargeOutputSteps(m.core.mem);
  }

  lemma LargeOutputSteps(mem: seq<int>)
    requires |mem| >= 3 && mem[0] == 104 && mem[1] == 1125899906842624 && mem[2] == 99
    ensures Step(At(0, mem, 0)) == Emitted(1125899906842624, At(2, mem, 0))
    ensures Step(At(2, mem, 0)) == Halt
  {
    LargeOutputWords();
    HaltWord();
  }

  lemma LargeOutputWords()
    ensures Opcode(104) == 4 && Mode(104, 1) == 1
  {
    WordFields(104, 4, 1, 0, 0);
  }

  /** A program that prints itself. */
  const Quine: seq<int> := [109, 1, 204, -1, 1001, 100, 1, 100, 1008, 100, 16, 101, 1006, 101, 0, 99]

  /** Memory holding the program, the loop counter in cell 100 and the stop flag in cell 101. */
  predicate QuineLayout(mem: seq<int>, counter: int, flag: int)
  {
    |mem| == |Quine| + Pad && mem[100] == counter && mem[101] == flag
    && forall i :: 0 <= i < |Quine| ==> mem[i] == Quine[i]
  }

  function At(pc: int, mem: seq<int>, rb: int): Machine
  {
    Machine(Core(pc, mem, rb), [])
  }

  /** The opcodes and mode digits of the program's instruction words. */
  lemma AdjustWord() ensures Opcode(109) == 9 && Mode(109, 1) == 1 { WordFields(109, 9, 1, 0, 0); }
  lemma PrintWord() ensures Opcode(204) == 4 && Mode(204, 1) == 2 { WordFields(204, 4, 2, 0, 0); }
  lemma CountWord()
    ensures Opcode(1001) == 1 && Mode(1001, 1) == 0 && Mode(1001, 2) == 1 && Mode(1001, 3) == 0
  {
    WordFields(1001, 1, 0, 1, 0);
  }
  lemma CompareWord()
    ensures Opcode(1008) == 8 && Mode(1008, 1) == 0 && Mode(1008, 2) == 1 && Mode(1008, 3) == 0
  {
    WordFields(1008, 8, 0, 1, 0);
  }
  lemma LoopWord() ensures Opcode(1006) == 6 && Mode(1006, 1) == 0 && Mode(1006, 2) == 1 { WordFields(1006, 6, 0, 1, 0); }

  /** A step is the effect of the instruction the program counter decodes to. */
  lemma StepDecoded(m: Machine, ins: Instr)
    requires DecodeRelative(m.core.mem, m.core.pc, m.core.rb) == Ok(ins)
    ensures Step(m) == Effect(m, ins)
  {
  }

  /** `109,1`: the base moves up by one. */
  lemma QuineAdjust(mem: seq<int>, k: int)
    requires 0 <= k < 16 && QuineLayout(mem, k, 0)
    ensures Step(At(0, mem, k)) == Continue(At(2, mem, k + 1))
  {
    AdjustDecodes(mem, k);
    StepDecoded(At(0, mem, k), Rbo(1));
  }

  lemma AdjustDecodes(mem: seq<int>, k: int)
    requires 0 <= k < 16 && QuineLayout(mem, k, 0)
    ensures DecodeRelative(mem, 0, k) == Ok(Rbo(1))
  {
    AdjustWord();
    assert mem[0] == Quine[0] == 109 && mem[1] == Quine[1] == 1;
    RelativeModes12(mem, 0, k, 9, Immediate, Position);
  }

  /** `204,-1`: the cell just below the base, which is cell `k` of the program, is output. */
  lemma QuinePrint(mem: seq<int>, k: int)
    requires 0 <= k < 16 && QuineLayout(mem, k, 0)
    ensures Step(At(2, mem, k + 1)) == Emitted(Quine[k], At(4, mem, k + 1))
  {
    PrintDecodes(mem, k);
    StepDecoded(At(2, mem, k + 1), Out(Quine[k]));
  }

  lemma PrintDecodes(mem: seq<int>, k: int)
    requires 0 <= k < 16 && QuineLayout(mem, k, 0)
    ensures DecodeRelative(mem, 2, k + 1) == Ok(Out(Quine[k]))
  {
    PrintWord();
    assert mem[2] == Quine[2] == 204 && mem[3] == Quine[3] == -1;
    assert mem[k] == Quine[k];
    RelativeModes12(mem, 2, k + 1, 4, Relative, Position);
  }

  /** `1001,100,1,100`: the counter in cell 100 goes up by one. */
  lemma QuineCount(mem: seq<int>, k: int)
    requires 0 <= k < 16 && QuineLayout(mem, k, 0)
    ensures Step(At(4, mem, k + 1)) == Continue(At(8, mem[100 := k + 1], k + 1))
    ensures QuineLayout(mem[100 := k + 1], k + 1, 0)
  {
    CountWord();
    assert mem[4] == Quine[4] && mem[5] == Quine[5] && mem[6] == Quine[6] && mem[7] == Quine[7];
    RelativeModes3(mem, 4, k + 1, 1, Position, Immediate, Position);
  }

  /** `1008,100,16,101`: cell 101 records whether the counter reached 16. */
  lemma QuineCompare(mem: seq<int>, k: int)
    requires 1 <= k <= 16 && QuineLayout(mem, k, 0)
    ensures var flag := if k == 16 then 1 else 0;
      Step(At(8, mem, k)) == Continue(At(12, mem[101 := flag], k))
      && QuineLayout(mem[101 := flag], k, flag)
  {
    CompareWord();
    assert mem[8] == Quine[8] && mem[9] == Quine[9] && mem[10] == Quine[10] && mem[11] == Quine[11];
    RelativeModes3(mem, 8, k, 8, Position, Immediate, Position);
  }

  /** `1006,101,0`: back to the start until the counter reached 16. */
  lemma QuineLoop(mem: seq<int>, k: int, flag: int)
    requires 1 <= k <= 16 && (flag == 0 || flag == 1) && QuineLayout(mem, k, flag)
    ensures Step(At(12, mem, k)) == Continue(At(if flag == 0 then 0 else 15, mem, k))
  {
    LoopWord();
    assert mem[12] == Quine[12] && mem[13] == Quine[13] && mem[14] == Quine[14];
    RelativeModes12(mem, 12, k, 6, Position, Immediate);
  }

  /** `99`. */
  lemma QuineHalt(mem: seq<int>, k: int, flag: int)
    requires QuineLayout(mem, k, flag)
    ensures Step(At(15, mem, k)) == Halt
  {
    HaltWord();
    assert mem[15] == Quine[15];
  }

  /** Round `k` prints program cell `k` and returns to the start with the
      counter and base at `k + 1`, or, in the sixteenth round, stops on the halt. */
  lemma QuineRound(mem: seq<int>, k: int, fuel: nat)
    requires 0 <= k < 16 && QuineLayout(mem, k, 0) && fuel >= 5
    ensures k < 15 ==>
      && QuineLayout(mem[100 := k + 1], k + 1, 0)
      && Collect(Step, At(0, mem, k), fuel) == Prepend([Quine[k]], Collect(Step, At(0, mem[100 := k + 1], k + 1), fuel - 5))
    ensures k == 15 ==>
      Collect(Step, At(0, mem, k), fuel) == Prepend([Quine[k]], Collect(Step, At(15, mem[100 := 16][101 := 1], 16), fuel - 5))
  {
    QuineAdjust(mem, k);
    QuinePrint(mem, k);
    QuineCount(mem, k);
    var mem1 := mem[100 := k + 1];
    QuineCompare(mem1, k + 1);
    var flag := if k + 1 == 16 then 1 else 0;
    var mem2 := mem1[101 := flag];
    QuineLoop(mem2, k + 1, flag);
    var s5 := At(if flag == 0 then 0 else 15, mem2, k + 1);
    var t := Collect(Step, s5, fuel - 5);
    assert Collect(Step, At(12, mem2, k + 1), fuel - 4) == t;
    assert Collect(Step, At(8, mem1, k + 1), fuel - 3) == t;
    assert Collect(Step, At(4, mem, k + 1), fuel - 2) == t;
    assert Collect(Step, At(2, mem, k + 1), fuel - 1) == Prepend([Quine[k]], t);
    if k < 15 {
      assert mem2 == mem1;
    }
  }

  /** The last round prints the last cell and halts. */
  lemma QuineLastRound(mem: seq<int>, fuel: nat)
    requires QuineLayout(mem, 15, 0) && fuel >= 6
    ensures var t := Collect(Step, At(0, mem, 15), fuel);
      t.outs == [Quine[15]] && t.end == Halted && t.left == fuel - 6
  {
    QuineRound(mem, 15, fuel);
    var mem' := mem[100 := 16][101 := 1];
    assert QuineLayout(mem', 16, 1);
    QuineHalt(mem', 16, 1);
    assert Collect(Step, At(15, mem', 16), fuel - 5) == Trace([], Halted, At(15, mem', 16), fuel - 6);
  }

  /** What the remaining rounds print from round `k` on. */
  predicate QuinePrintsFrom(mem: seq<int>, k: int, fuel: nat)
    requires 0 <= k <= 16
  {
    var t := Collect(Step, At(0, mem, k), fuel);
    t.outs == Quine[k..] && t.end == Halted && t.left == fuel - (5 * (16 - k) + 1)
  }

  /** One round: the layout passes to the next counter value, and what the
      later rounds print, preceded by cell `k`, is what round `k` on prints. */
  lemma QuineInduct(mem: seq<int>, k: int, fuel: nat)
    requires 0 <= k < 15 && QuineLayout(mem, k, 0) && fuel >= 5 * (16 - k) + 1
    ensures QuineLayout(mem[100 := k + 1], k + 1, 0)
    ensures QuinePrintsFrom(mem[100 := k + 1], k + 1, fuel - 5) ==> QuinePrintsFrom(mem, k, fuel)
  {
    QuineRound(mem, k, fuel);
    assert Quine[k..] == [Quine[k]] + Quine[k + 1..];
  }

  lemma {:induction false} QuineFrom(mem: seq<int>, k: int, fuel: nat)
    requires 0 <= k < 16 && QuineLayout(mem, k, 0) && fuel >= 5 * (16 - k) + 1
    ensures QuinePrintsFrom(mem, k, fuel)
    decreases 16 - k
  {
    if k < 15 {
      QuineInduct(mem, k, fuel);
      QuineFrom(mem[100 := k + 1], k + 1, fuel - 5);
    } else {
      QuinePrintsLast(mem, fuel);
    }
  }

  lemma QuinePrintsLast(mem: seq<int>, fuel: nat)
    requires QuineLayout(mem, 15, 0) && fuel >= 6
    ensures QuinePrintsFrom(mem, 15, fuel)
  {
    QuineLastRound(mem, fuel);
    assert Quine[15..] == [Quine[15]];
  }

  /** The self-printing program outputs exactly its own text and halts. */
  lemma QuineReproducesItself(fuel: nat)
    requires fuel >= 81
    ensures Collect(Step, Initial(Quine, []), fuel).outs == Quine
    ensures Collect(Step, Initial(Quine, []), fuel).end == Halted
  {
    var m := Initial(Quine, []);
    InitialMemory(Quine, []);
    assert m == At(0, m.core.mem, 0);
    QuineFrom(m.core.mem, 0, fuel);
  }

  /** The two unit tests, run against the class. */
  method UnitTests()
  {
    var vm := new IntCodeVM(LargeOutputProgram, []);
    var y, _ := vm.NextOutput(10);
    LargeOutput(10);
    assert y == Output(1125899906842624);

    var quine := new IntCodeVM(Quine, []);
    var outs, stop, _ := quine.CollectOutput(100);
    QuineReproducesItself(100);
    assert outs == Quine && stop == Halted;
  }
}
