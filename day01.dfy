/** Fuel for the spacecraft's modules: a third of the mass, rounded toward
    zero, less two; and the fuel that fuel itself needs, added up until a
    step asks for nothing more. */
module Day01 {
  import opened RustInt

  /** The part-1 fuel of one mass, not clamped: small or negative masses
      give negative fuel. */
  function Fuel(mass: int): int
  {
    Quot(mass, 3) - 2
  }

  /** The fuel of a non-negative mass is the largest `f` whose `f + 2`
      thirds of a unit still fit in the mass. */
  lemma FuelOfMass(mass: int)
    requires mass >= 0
    ensures 3 * (Fuel(mass) + 2) <= mass < 3 * (Fuel(mass) + 3)
  {
    NonNegativeAgrees(mass, 3);
  }

  /** A positive fuel needs a mass of at least 9, and is smaller than it:
      the reason the iteration stops. */
  lemma FuelShrinks(mass: int)
    requires Fuel(mass) > 0
    ensures 9 <= mass && Fuel(mass) < mass
  {
    if mass >= 0 {
      FuelOfMass(mass);
    }
  }

  /** The total `allfuel` computes: nothing once a step asks for no more
      fuel, otherwise that step's fuel plus the total for it. */
  function TotalFuel(mass: int): int
    decreases if mass < 0 then 0 else mass
  {
    var f := Fuel(mass);
    if f > 0 then
      FuelShrinks(mass);
      f + TotalFuel(f)
    else 0
  }

  /** `allfuel`: the loop over the mass of the latest fuel added. */
  method AllFuel(mass: int) returns (all: int)
    ensures all == TotalFuel(mass)
    ensures all >= 0
  {
    all := 0;
    var m := mass;
    while true
      invariant all + TotalFuel(m) == TotalFuel(mass)
      decreases if m < 0 then 0 else m
    {
      var additional := Fuel(m);
      if additional > 0 {
        all := all + additional;
      } else {
        break;
      }
      FuelShrinks(m);
      m := additional;
    }
    TotalFuelBounds(mass);
  }

  /** The total is never negative, is at least the first step's fuel, and
      is at most half the mass. */
  lemma {:induction false} TotalFuelBounds(mass: int)
    ensures 0 <= TotalFuel(mass)
    ensures Fuel(mass) <= TotalFuel(mass)
    ensures mass >= 0 ==> 2 * TotalFuel(mass) <= mass
    decreases if mass < 0 then 0 else mass
  {
    var f := Fuel(mass);
    if f > 0 {
      FuelShrinks(mass);
      TotalFuelBounds(f);
      FuelOfMass(mass);
    }
  }

  /** The total is zero exactly when the first step asks for no fuel. */
  lemma TotalFuelZero(mass: int)
    ensures TotalFuel(mass) == 0 <==> Fuel(mass) <= 0
  {
    if Fuel(mass) > 0 {
      FuelShrinks(mass);
      TotalFuelBounds(Fuel(mass));
    }
  }

  /** Part 1: the unclamped fuel of every module, summed. */
  function Part1(modules: seq<int>): int
  {
    if modules == [] then 0 else Fuel(modules[0]) + Part1(modules[1..])
  }

  /** Part 2: `allfuel` of every module, summed. */
  function Part2(modules: seq<int>): int
  {
    if modules == [] then 0 else TotalFuel(modules[0]) + Part2(modules[1..])
  }

  /** Both sums add up over a split of the module list. */
  lemma {:induction false} PartsSplit(a: seq<int>, b: seq<int>)
    ensures Part1(a + b) == Part1(a) + Part1(b)
    ensures Part2(a + b) == Part2(a) + Part2(b)
  {
    if a == [] {
      assert a + b == b;
    } else {
      assert (a + b)[1..] == a[1..] + b;
      PartsSplit(a[1..], b);
    }
  }

  /** Part 2 is never negative and never below part 1: counting the fuel's
      own fuel only adds, and clamping only raises negative terms. */
  lemma {:induction false} Part1AtMostPart2(modules: seq<int>)
    ensures 0 <= Part2(modules)
    ensures Part1(modules) <= Part2(modules)
  {
    if modules != [] {
      TotalFuelBounds(modules[0]);
      Part1AtMostPart2(modules[1..]);
    }
  }
}
