/** The day-11 machine and the hull-painting robot it drives. The machine
    is the day-9 one with a single input register instead of a queue: an
    input instruction reads the register and leaves it as it is. */
module Day11 {
  import opened Wrappers
  import opened RustInt
  import opened Intcode
  import opened Driver

  /** Zero cells appended after the program. */
  const Pad: nat := 4096

  datatype Machine = Machine(core: Core, input: int)

  function Initial(program: seq<int>, input: int): Machine
  {
    Machine(Core(0, program + Zeros(Pad), 0), input)
  }

  /** One fetch-decode-execute step; an input instruction reads the register. */
  function Step(m: Machine): Event<Machine>
  {
    match DecodeRelative(m.core.mem, m.core.pc, m.core.rb)
    case Err(f) => Crash(f)
    case Ok(ins) => Effect(m, ins)
  }

  /** What the decoded instruction `ins` does to `m`. */
  function Effect(m: Machine, ins: Instr): Event<Machine>
  {
    match Exec(m.core, ins, Some(m.input))
    case Continue(c) => Continue(Machine(c, m.input))
    case Emitted(v, c) => Emitted(v, Machine(c, m.input))
    case Halt => Halt
    case Crash(f) => Crash(f)
  }

  class IntCodeVM {
    var pc: int
    const mem: array<int>
    var input: int
    var relativeBase: int

    function State(): Machine
      reads this, mem
    {
      Machine(Core(pc, mem[..], relativeBase), input)
    }

    /** The program followed by 4096 zeros, with `input` in the register. */
    constructor (startingMemory: seq<int>, input: int)
      ensures State() == Initial(startingMemory, input)
      ensures fresh(mem)
    {
      var n := |startingMemory|;
      pc := 0;
      mem := new int[n + Pad](i requires 0 <= i < n + Pad => if i < n then startingMemory[i] else 0);
      this.input := input;
      relativeBase := 0;
      new;
      assert mem[..] == startingMemory + Zeros(Pad);
    }

    /** Runs until an output, a halt, a panic, or until `fuel` instructions
        have been decoded. */
    method NextOutput(fuel: nat) returns (y: Yield, left: nat)
      modifies this, mem
      ensures Run(y, State(), left) == Drive(Step, old(State()), fuel)
    {
      left := fuel;
      ghost var cur := State();
      y := OutOfFuel;
      while left > 0
        invariant cur == State()
        invariant Drive(Step, cur, left) == Drive(Step, old(State()), fuel)
        decreases left
      {
        var stop;
        ghost var next;
        stop, next := StepOnce();
        DriveStepped(Step, cur, next, stop, left);
        cur, left := next, left - 1;
        if stop.Some? {
          return stop.value, left;
        }
      }
    }

    /** One fetch-decode-execute step in place. */
    method StepOnce() returns (stop: Option<Yield>, ghost next: Machine)
      modifies this, mem
      ensures next == State()
      ensures Stepped(Step, old(State()), next, stop)
    {
      var d := DecodeRelative(mem[..], pc, relativeBase);
      if d.Err? {
        assert Step(State()) == Crash(d.error);
        return Some(Crashed(d.error)), State();
      }
      stop := Execute(d.value);
      next := State();
    }

    /** Executes one decoded instruction in place; `None` means execution goes on. */
    method Execute(ins: Instr) returns (stop: Option<Yield>)
      modifies this, mem
      ensures Became(Effect(old(State()), ins), old(State()), State(), stop)
    {
      match ins
      case Add(a, b, out) =>
        stop := Write(out, a + b, 4);
      case Mul(a, b, out) =>
        stop := Write(out, a * b, 4);
      case Inp(out) =>
        stop := Write(out, input, 2);
      case Out(a) =>
        pc := pc + 2;
        stop := Some(Output(a));
      case Jnz(a, b) =>
        pc := if a != 0 then b else pc + 3;
        stop := None;
      case Jz(a, b) =>
        pc := if a == 0 then b else pc + 3;
        stop := None;
      case Lt(a, b, out) =>
        stop := Write(out, if a < b then 1 else 0, 4);
      case Eq(a, b, out) =>
        stop := Write(out, if a == b then 1 else 0, 4);
      case Rbo(a) =>
        relativeBase := relativeBase + a;
        pc := pc + 2;
        stop := None;
      case Hlt =>
        stop := Some(Halted);
    }

    /** `mem[out] = v; pc += width`, or the panic of an index outside memory. */
    method Write(out: int, v: int, width: int) returns (stop: Option<Yield>)
      modifies this, mem
      ensures input == old(input) && relativeBase == old(relativeBase)
      ensures match Intcode.Store(old(State()).core, out, v, width)
        case Continue(c) => stop == None && State().core == c
        case _ => stop == Some(Crashed(BadAddress(out))) && State() == old(State())
    {
      if !(0 <= out < mem.Length) {
        return Some(Crashed(BadAddress(out)));
      }
      mem[out] := v;
      pc := pc + width;
      stop := None;
    }

    /** Every output up to the halt, in emission order. */
    method CollectOutput(fuel: nat) returns (outs: seq<int>, stop: Yield, left: nat)
      modifies this, mem
      ensures Trace(outs, stop, State(), left) == Collect(Step, old(State()), fuel)
    {
      outs, left := [], fuel;
      ghost var cur := State();
      while true
        invariant cur == State()
        invariant Collect(Step, old(State()), fuel) == Prepend(outs, Collect(Step, cur, left))
        decreases left
      {
        CollectByDrive(Step, cur, left);
        var y, l := NextOutput(left);
        ghost var next := State();
        if !y.Output? {
          stop, left := y, l;
          return;
        }
        PrependTwice(outs, [y.value], Collect(Step, next, l));
        outs, left, cur := outs + [y.value], l, next;
      }
    }

    /** Replaces the value every later input instruction reads. */
    method SetInput(i: int)
      modifies this
      ensures State() == old(State()).(input := i)
    {
      input := i;
    }
  }

  /** Only `SetInput` changes the register: running never does. */
  lemma InputKept(m: Machine, fuel: nat)
    ensures Drive(Step, m, fuel).state.input == m.input
    ensures Collect(Step, m, fuel).state.input == m.input
  {
    var inv := (t: Machine) => t.input == m.input;
    forall t: Machine
      ensures StepKeeps(Step, inv, t)
    {
    }
    DriveKeeps(Step, inv, m, fuel);
    CollectKeeps(Step, inv, m, fuel);
  }

  /** An input instruction writes the register's value and goes on. */
  lemma InputReadsRegister(m: Machine, out: int)
    requires DecodeRelative(m.core.mem, m.core.pc, m.core.rb) == Ok(Inp(out))
    requires 0 <= out < |m.core.mem|
    ensures Step(m) == Continue(m.(core := m.core.(pc := m.core.pc + 2, mem := m.core.mem[out := m.input])))
  {
  }

  // ---------------------------------------------------------------------
  // The robot
  // ---------------------------------------------------------------------

  const UP: int := 0
  const RIGHT: int := 1
  const DOWN: int := 2
  const LEFT: int := 3

  /** `((a % b) + b) % b` with Rust's truncating remainder. */
  function Modulo(a: int, b: int): int
    requires b != 0
  {
    Rem(Rem(a, b) + b, b)
  }

  /** For a positive divisor the result is the non-negative residue of `a`,
      whatever the sign of `a`: it lies in `0..b` and is congruent to `a`. */
  lemma ModuloRange(a: int, b: int)
    requires b > 0
    ensures 0 <= Modulo(a, b) < b
    ensures Modulo(a, b) == a % b
  {
    var q, r := Quot(a, b), Rem(a, b);
    assert a == q * b + r && -b < r < b;
    NonNegativeAgrees(r + b, b);
    var m := (r + b) % b;
    var k := (r + b) / b;
    assert r + b == k * b + m;
    assert a == (q - 1 + k) * b + m;
    ModUnique(a, b, q - 1 + k, m);
  }

  /** A remainder in `0..b` is the Euclidean remainder. */
  lemma ModUnique(a: int, b: int, k: int, m: int)
    requires b > 0 && a == k * b + m && 0 <= m < b
    ensures a % b == m
  {
    var d := k - a / b;
    assert a == (a / b) * b + a % b;
    assert d * b == a % b - m;
    MultipleBounds(d, b);
  }

  /** A non-zero multiple of `b` is at least `b` away from zero. */
  lemma MultipleBounds(d: int, b: int)
    requires b > 0
    ensures d >= 1 ==> d * b >= b
    ensures d <= -1 ==> d * b <= -b
  {
    if d >= 1 {
      assert d * b == (d - 1) * b + b;
    } else if d <= -1 {
      assert d * b == (d + 1) * b - b;
    }
  }

  /** The modulus 4 the robot uses. */
  lemma ModuloFour(a: int)
    ensures 0 <= Modulo(a, 4) < 4
    ensures Modulo(a, 4) == a % 4
  {
    ModuloRange(a, 4);
  }

  /** The direction of a robot and where it stands; the y axis points down. */
  datatype Pose = Pose(d: int, x: int, y: int)

  /** An `as u8` cast. */
  function U8(v: int): int
  {
    v % 256
  }

  /** `turn_and_move` with turn code `n` on a pose facing one of the four
      directions: 0 turns left, 1 turns right, anything else panics. */
  function NextPose(p: Pose, n: int): Result<Pose, int>
    requires 0 <= p.d < 4
  {
    if n != 0 && n != 1 then Err(n)
    else
      var d := if n == 0 then Modulo(p.d - 1, 4) else Modulo(p.d + 1, 4);
      Ok(if d == UP then Pose(d, p.x, p.y - 1)
         else if d == RIGHT then Pose(d, p.x + 1, p.y)
         else if d == DOWN then Pose(d, p.x, p.y + 1)
         else Pose(d, p.x - 1, p.y))
  }

  /** The direction a pose faces after turning. */
  function Turned(d: int, n: int): int
  {
    if n == 0 then (d - 1) % 4 else (d + 1) % 4
  }

  /** The step the robot takes facing `d`. */
  function Delta(d: int): (int, int)
  {
    if d == UP then (0, -1) else if d == RIGHT then (1, 0) else if d == DOWN then (0, 1) else (-1, 0)
  }

  /** A turn code of 0 or 1 turns a quarter left or right and moves one
      panel that way; the direction stays one of the four, so the
      wrong-direction panic is unreachable. */
  lemma NextPoseSteps(p: Pose, n: int)
    requires 0 <= p.d < 4
    ensures NextPose(p, n).Err? <==> n != 0 && n != 1
    ensures NextPose(p, n).Ok? ==>
      var q := NextPose(p, n).value;
      && 0 <= q.d < 4
      && q.d == Turned(p.d, n)
      && (q.x, q.y) == (p.x + Delta(q.d).0, p.y + Delta(q.d).1)
  {
    if n == 0 || n == 1 {
      var a := if n == 0 then p.d - 1 else p.d + 1;
      ModuloFour(a);
      assert Modulo(a, 4) == Turned(p.d, n);
    }
  }

  /** A left turn undoes a right turn and four right turns are a full circle. */
  lemma TurnsCompose(d: int)
    requires 0 <= d < 4
    ensures Turned(Turned(d, 1), 0) == d && Turned(Turned(d, 0), 1) == d
    ensures Turned(Turned(Turned(Turned(d, 1), 1), 1), 1) == d
  {
  }

  /** Each move is to one of the four neighbouring panels. */
  lemma MovesOnePanel(d: int)
    ensures var (dx, dy) := Delta(d); (if dx < 0 then -dx else dx) + (if dy < 0 then -dy else dy) == 1
  {
  }

  class Robot {
    var d: int
    var x: int
    var y: int

    function State(): Pose
      reads this
    {
      Pose(d, x, y)
    }

    /** The direction is always one of the four. */
    predicate Valid()
      reads this
    {
      0 <= d < 4
    }

    /** Facing up at the origin. */
    constructor ()
      ensures Valid() && State() == Pose(UP, 0, 0)
    {
      d, x, y := UP, 0, 0;
    }

    /** `ok` is false for the wrong-turn panic, which changes nothing. */
    method TurnAndMove(n: int) returns (ok: bool)
      requires Valid()
      modifies this
      ensures Valid()
      ensures ok <==> NextPose(old(State()), n).Ok?
      ensures ok ==> State() == NextPose(old(State()), n).value
      ensures !ok ==> State() == old(State())
    {
      if n == 0 {
        d := Modulo(d - 1, 4);
      } else if n == 1 {
        d := Modulo(d + 1, 4);
      } else {
        return false;
      }
      ModuloFour(old(d) - 1);
      ModuloFour(old(d) + 1);
      if d == UP {
        y := y - 1;
      } else if d == RIGHT {
        x := x + 1;
      } else if d == DOWN {
        y := y + 1;
      } else {
        x := x - 1;
      }
      ok := true;
    }
  }

  // ---------------------------------------------------------------------
  // Painting
  // ---------------------------------------------------------------------

  type Panels = map<(int, int), int>

  /** Why painting stopped without a result: a machine panic, an output
      color of 2 or more, a turn code other than 0 and 1 (after the `as u8`
      cast), or the fuel ran out. */
  datatype PaintFault =
    | MachineFault(fault: Fault)
    | BadColor(color: int)
    | WrongTurn(turn: int)
    | Exhausted

  /** The color the robot's camera reports for a panel: unpainted is black. */
  function ColorAt(panels: Panels, x: int, y: int): int
  {
    if (x, y) in panels then panels[(x, y)] else 0
  }

  /** The painting loop from machine `m`, robot pose `p` and panels painted so far. */
  function PaintFrom(m: Machine, p: Pose, panels: Panels, fuel: nat): Result<Panels, PaintFault>
    requires 0 <= p.d < 4
    decreases fuel
  {
    var r1 := Drive(Step, m, fuel);
    match r1.outcome
    case Halted => Ok(panels)
    case Crashed(f) => Err(MachineFault(f))
    case OutOfFuel => Err(Exhausted)
    case Output(color) =>
      if color >= 2 then Err(BadColor(color))
      else
        var painted := panels[(p.x, p.y) := U8(color)];
        var r2 := Drive(Step, r1.state, r1.left);
        match r2.outcome
        case Halted => Ok(painted)
        case Crashed(f) => Err(MachineFault(f))
        case OutOfFuel => Err(Exhausted)
        case Output(turn) =>
          match NextPose(p, U8(turn))
          case Err(n) => Err(WrongTurn(n))
          case Ok(q) =>
            NextPoseSteps(p, U8(turn));
            PaintFrom(r2.state.(input := ColorAt(painted, q.x, q.y)), q, painted, r2.left)
  }

  /** `paint`: the origin starts with the given color and the machine with
      it in its register. */
  function Painting(program: seq<int>, inp: int, fuel: nat): Result<Panels, PaintFault>
  {
    PaintFrom(Initial(program, inp), Pose(UP, 0, 0), map[(0, 0) := U8(inp)], fuel)
  }

  method Paint(startingMemory: seq<int>, inp: int, fuel: nat) returns (r: Result<Panels, PaintFault>)
    ensures r == Painting(startingMemory, inp, fuel)
  {
    var robot := new Robot();
    var vm := new IntCodeVM(startingMemory, inp);
    var panels := map[(0, 0) := U8(inp)];
    var left := fuel;
    while true
      invariant fresh(robot) && fresh(vm) && fresh(vm.mem) && robot.Valid()
      invariant PaintFrom(vm.State(), robot.State(), panels, left) == Painting(startingMemory, inp, fuel)
      decreases left
    {
      var color, l1 := vm.NextOutput(left);
      if !color.Output? {
        return if color.Halted? then Ok(panels)
               else if color.Crashed? then Err(MachineFault(color.fault))
               else Err(Exhausted);
      }
      if color.value >= 2 {
        return Err(BadColor(color.value));
      }
      panels := panels[(robot.x, robot.y) := U8(color.value)];
      var turn, l2 := vm.NextOutput(l1);
      if !turn.Output? {
        return if turn.Halted? then Ok(panels)
               else if turn.Crashed? then Err(MachineFault(turn.fault))
               else Err(Exhausted);
      }
      var ok := robot.TurnAndMove(U8(turn.value));
      if !ok {
        return Err(WrongTurn(U8(turn.value)));
      }
      vm.SetInput(ColorAt(panels, robot.x, robot.y));
      left := l2;
    }
  }

  /** The painted panels always include the origin and every recorded color
      is a byte; a finished run only ever adds panels. */
  lemma {:induction false} PaintKeeps(m: Machine, p: Pose, panels: Panels, fuel: nat)
    requires 0 <= p.d < 4
    requires (0, 0) in panels && forall k :: k in panels ==> 0 <= panels[k] < 256
    ensures var r := PaintFrom(m, p, panels, fuel);
      r.Ok? ==> && panels.Keys <= r.value.Keys
                && (0, 0) in r.value
                && forall k :: k in r.value ==> 0 <= r.value[k] < 256
    decreases fuel
  {
    var r1 := Drive(Step, m, fuel);
    if r1.outcome.Output? && r1.outcome.value < 2 {
      var painted := panels[(p.x, p.y) := U8(r1.outcome.value)];
      var r2 := Drive(Step, r1.state, r1.left);
      if r2.outcome.Output? {
        var t := NextPose(p, U8(r2.outcome.value));
        if t.Ok? {
          NextPoseSteps(p, U8(r2.outcome.value));
          var q := t.value;
          PaintKeeps(r2.state.(input := ColorAt(painted, q.x, q.y)), q, painted, r2.left);
        }
      }
    }
  }

  /** Part one: the number of panels in the map `paint(&input, 0)` returns,
      each painted at least once or the seeded origin. */
  function Part1(program: seq<int>, fuel: nat): Result<nat, PaintFault>
  {
    match Painting(program, 0, fuel)
    case Err(e) => Err(e)
    case Ok(panels) => Ok(|panels.Keys|)
  }

  /** Part one fails exactly when painting does, with its fault; otherwise
      it counts at least the origin, which stays in the map. */
  lemma PaintedCount(program: seq<int>, fuel: nat)
    ensures Part1(program, fuel).Err? <==> Painting(program, 0, fuel).Err?
    ensures Part1(program, fuel).Err? ==> Part1(program, fuel).error == Painting(program, 0, fuel).error
    ensures Part1(program, fuel).Ok? ==> Part1(program, fuel).value >= 1 && (0, 0) in Painting(program, 0, fuel).value
  {
    PaintKeeps(Initial(program, 0), Pose(UP, 0, 0), map[(0, 0) := U8(0)], fuel);
  }
}
