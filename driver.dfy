/** Running a machine given by its one-step function. `Drive` is the
    resumable `next_output`/`run` contract: run until an output (the machine
    stays resumable after it), a halt (the machine stays on the halt), a
    panic, or until `fuel` instructions have been decoded. `Collect` is the
    small-step trace of every output up to the halt. */
module Driver {
  import opened Wrappers
  import opened Intcode

  /** What a call to the run primitive returns. */
  datatype Yield = Output(value: int) | Halted | Crashed(fault: Fault) | OutOfFuel

  /** The answer of a call, the state after it and the fuel left. */
  datatype Run<S> = Run(outcome: Yield, state: S, left: nat)

  /** Every output in emission order, how the run ended, the final state and the fuel left. */
  datatype Trace<S> = Trace(outs: seq<int>, end: Yield, state: S, left: nat)

  function Prepend<S>(vs: seq<int>, t: Trace<S>): Trace<S>
  {
    t.(outs := vs + t.outs)
  }

  lemma PrependTwice<S>(a: seq<int>, b: seq<int>, t: Trace<S>)
    ensures Prepend(a, Prepend(b, t)) == Prepend(a + b, t)
  {
    assert a + (b + t.outs) == (a + b) + t.outs;
  }

  function Drive<S>(step: S -> Event<S>, s: S, fuel: nat): (r: Run<S>)
    ensures r.left <= fuel
    ensures r.outcome.Output? || r.outcome.Halted? || r.outcome.Crashed? ==> r.left < fuel
    ensures r.outcome.OutOfFuel? ==> r.left == 0
    decreases fuel
  {
    if fuel == 0 then Run(OutOfFuel, s, 0)
    else
      match step(s)
      case Continue(s') => Drive(step, s', fuel - 1)
      case Emitted(v, s') => Run(Output(v), s', fuel - 1)
      case Halt => Run(Halted, s, fuel - 1)
      case Crash(f) => Run(Crashed(f), s, fuel - 1)
  }

  function Collect<S>(step: S -> Event<S>, s: S, fuel: nat): (t: Trace<S>)
    ensures t.left <= fuel
    ensures !t.end.Output?
    decreases fuel
  {
    if fuel == 0 then Trace([], OutOfFuel, s, 0)
    else
      match step(s)
      case Continue(s') => Collect(step, s', fuel - 1)
      case Emitted(v, s') => Prepend([v], Collect(step, s', fuel - 1))
      case Halt => Trace([], Halted, s, fuel - 1)
      case Crash(f) => Trace([], Crashed(f), s, fuel - 1)
  }

  /** `t` and `stop` are what one step from `s` gives: the next state and
      no stop; the next state and the output; or `s` itself and how it stopped. */
  predicate Stepped<S(==)>(step: S -> Event<S>, s: S, t: S, stop: Option<Yield>)
  {
    Became(step(s), s, t, stop)
  }

  /** `t` and `stop` are what the event `e` of a step from `s` gives. */
  predicate Became<S(==)>(e: Event<S>, s: S, t: S, stop: Option<Yield>)
  {
    match e
    case Continue(n) => stop == None && t == n
    case Emitted(v, n) => stop == Some(Output(v)) && t == n
    case Halt => stop == Some(Halted) && t == s
    case Crash(f) => stop == Some(Crashed(f)) && t == s
  }

  lemma DriveStepped<S>(step: S -> Event<S>, s: S, t: S, stop: Option<Yield>, fuel: nat)
    requires fuel > 0 && Stepped(step, s, t, stop)
    ensures stop == None ==> Drive(step, s, fuel) == Drive(step, t, fuel - 1)
    ensures stop.Some? ==> Drive(step, s, fuel) == Run(stop.value, t, fuel - 1)
  {
  }

  /** One step of the trace. */
  lemma CollectStepped<S>(step: S -> Event<S>, s: S, t: S, stop: Option<Yield>, fuel: nat)
    requires fuel > 0 && Stepped(step, s, t, stop)
    ensures stop == None ==> Collect(step, s, fuel) == Collect(step, t, fuel - 1)
    ensures stop.Some? && stop.value.Output? ==>
      Collect(step, s, fuel) == Prepend([stop.value.value], Collect(step, t, fuel - 1))
    ensures stop.Some? && !stop.value.Output? ==> Collect(step, s, fuel) == Trace([], stop.value, t, fuel - 1)
  {
  }

  /** One step of a loop that gathers the outputs of a trace: what is left
      of the trace after a step that produced nothing or one output. */
  lemma CollectAdvance<S>(step: S -> Event<S>, whole: Trace<S>, outs: seq<int>, s: S, t: S, stop: Option<Yield>, fuel: nat)
    requires fuel > 0 && Stepped(step, s, t, stop) && (stop.None? || stop.value.Output?)
    requires whole == Prepend(outs, Collect(step, s, fuel))
    ensures stop.None? ==> whole == Prepend(outs, Collect(step, t, fuel - 1))
    ensures stop.Some? ==> whole == Prepend(outs + [stop.value.value], Collect(step, t, fuel - 1))
  {
    CollectStepped(step, s, t, stop, fuel);
    if stop.Some? {
      PrependTwice(outs, [stop.value.value], Collect(step, t, fuel - 1));
    }
  }

  /** Calling the run primitive until it stops producing outputs yields the
      small-step trace: the loop of `collect_output` computes `Collect`. */
  lemma {:induction false} CollectByDrive<S>(step: S -> Event<S>, s: S, fuel: nat)
    ensures var r := Drive(step, s, fuel);
      Collect(step, s, fuel) ==
        if r.outcome.Output? then Prepend([r.outcome.value], Collect(step, r.state, r.left))
        else Trace([], r.outcome, r.state, r.left)
    decreases fuel
  {
    if fuel > 0 && step(s).Continue? {
      CollectByDrive(step, step(s).next, fuel - 1);
    }
  }

  /** Once a call halts, the machine sits on its halt instruction: every
      further call with fuel returns `Halted` and changes nothing. */
  lemma {:induction false} HaltIsSticky<S>(step: S -> Event<S>, s: S, fuel: nat, more: nat)
    requires Drive(step, s, fuel).outcome.Halted?
    requires more > 0
    ensures var h := Drive(step, s, fuel).state;
      Drive(step, h, more) == Run(Halted, h, more - 1)
    decreases fuel
  {
    if step(s).Continue? {
      HaltIsSticky(step, step(s).next, fuel - 1, more);
    }
  }

  /** More fuel never changes an answer that did not run out of fuel. */
  lemma {:induction false} DriveFuelMonotone<S>(step: S -> Event<S>, s: S, fuel: nat, more: nat)
    requires !Drive(step, s, fuel).outcome.OutOfFuel?
    ensures var r := Drive(step, s, fuel);
      Drive(step, s, fuel + more) == r.(left := r.left + more)
    decreases fuel
  {
    if step(s).Continue? {
      DriveFuelMonotone(step, step(s).next, fuel - 1, more);
    }
  }

  /** The same for the whole trace. */
  lemma {:induction false} CollectFuelMonotone<S>(step: S -> Event<S>, s: S, fuel: nat, more: nat)
    requires !Collect(step, s, fuel).end.OutOfFuel?
    ensures var t := Collect(step, s, fuel);
      Collect(step, s, fuel + more) == t.(left := t.left + more)
    decreases fuel
  {
    if step(s).Continue? || step(s).Emitted? {
      CollectFuelMonotone(step, step(s).next, fuel - 1, more);
    }
  }

  /** A property every step keeps holds of the state every call leaves behind. */
  predicate StepKeeps<S>(step: S -> Event<S>, inv: S -> bool, s: S)
  {
    inv(s) ==> match step(s)
      case Continue(s') => inv(s')
      case Emitted(_, s') => inv(s')
      case _ => true
  }

  lemma {:induction false} DriveKeeps<S>(step: S -> Event<S>, inv: S -> bool, s: S, fuel: nat)
    requires forall t :: StepKeeps(step, inv, t)
    requires inv(s)
    ensures inv(Drive(step, s, fuel).state)
    decreases fuel
  {
    if fuel > 0 {
      assert StepKeeps(step, inv, s);
      if step(s).Continue? {
        DriveKeeps(step, inv, step(s).next, fuel - 1);
      }
    }
  }

  lemma {:induction false} CollectKeeps<S>(step: S -> Event<S>, inv: S -> bool, s: S, fuel: nat)
    requires forall t :: StepKeeps(step, inv, t)
    requires inv(s)
    ensures inv(Collect(step, s, fuel).state)
    decreases fuel
  {
    if fuel > 0 && (step(s).Continue? || step(s).Emitted?) {
      assert StepKeeps(step, inv, s);
      CollectKeeps(step, inv, step(s).next, fuel - 1);
    }
  }
}
