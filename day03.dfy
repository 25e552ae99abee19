/** Two wires on a grid: each is walked segment by segment from the origin,
    recording for every cell it passes the step count at which it was last
    there; the crossings off both axes are then scored by distance from the
    origin (part 1) and by the steps both wires take to reach them (part 2). */
module Day03 {
  import opened Wrappers

  type Cell = (int, int)

  /** One entry of a wire: a direction letter and a length. */
  datatype Segment = Segment(dir: char, len: int)

  /** The unit move of a direction letter; any other letter panics. */
  function Direction(d: char): Result<Cell, char>
  {
    match d
    case 'U' => Ok((0, 1))
    case 'D' => Ok((0, -1))
    case 'R' => Ok((1, 0))
    case 'L' => Ok((-1, 0))
    case _ => Err(d)
  }

  /** `0..n` is empty for a negative length. */
  function Count(len: int): nat { if len < 0 then 0 else len }

  /** The `n` cells a segment records from `(x, y)`: each before stepping. */
  function Line(x: int, y: int, w: int, h: int, n: nat): (l: seq<Cell>)
    ensures |l| == n
    ensures forall i :: 0 <= i < n ==> l[i] == (x + i * w, y + i * h)
  {
    seq(n, i => (x + i * w, y + i * h))
  }

  /** The cells the walk from `(x, y)` records, in step order: each segment's
      cells from where the previous segment stopped. The end point of the
      last segment is never recorded. */
  function Cells(wire: seq<Segment>, x: int, y: int): Result<seq<Cell>, char>
  {
    if wire == [] then Ok([])
    else
      var delta :- Direction(wire[0].dir);
      var n := Count(wire[0].len);
      var rest :- Cells(wire[1..], x + n * delta.0, y + n * delta.1);
      Ok(Line(x, y, delta.0, delta.1, n) + rest)
  }

  /** `p + r` when `r` is a path, the panic otherwise. */
  function Prefixed(p: seq<Cell>, r: Result<seq<Cell>, char>): Result<seq<Cell>, char>
  {
    if r.Ok? then Ok(p + r.value) else r
  }

  /** `m` holds exactly the cells of `path`, each with the last step at
      which the path is there. */
  ghost predicate LatestSteps(path: seq<Cell>, m: map<Cell, nat>)
  {
    && (forall c :: c in m <==> c in path)
    && (forall c :: c in m ==> m[c] < |path| && path[m[c]] == c)
    && (forall c, k :: c in m && m[c] < k < |path| ==> path[k] != c)
  }

  /** Recording the next cell at the next step keeps the map the latest-step map. */
  lemma RecordCell(path: seq<Cell>, m: map<Cell, nat>, c: Cell)
    requires LatestSteps(path, m)
    ensures LatestSteps(path + [c], m[c := |path|])
  {
    var p', m' := path + [c], m[c := |path|];
    forall d
      ensures d in m' <==> d in p'
    {
      if d in p' && d != c {
        var k :| 0 <= k < |p'| && p'[k] == d;
        assert path[k] == d;
      }
    }
    forall d, k | d in m' && m'[d] < k < |p'|
      ensures p'[k] != d
    {
      if d != c && k < |path| {
        assert path[k] == p'[k];
      }
    }
  }

  /** `read_wire`: the walk over the wire's segments, recording the step
      count of every cell before moving on; a bad direction letter panics
      before its segment starts. */
  method ReadWire(wire: seq<Segment>) returns (r: Result<map<Cell, nat>, char>)
    ensures r.Err? <==> Cells(wire, 0, 0).Err?
    ensures r.Err? ==> r.error == Cells(wire, 0, 0).error
    ensures r.Ok? ==> LatestSteps(Cells(wire, 0, 0).value, r.value)
  {
    var m: map<Cell, nat> := map[];
    var x, y, steps := 0, 0, 0;
    ghost var path: seq<Cell> := [];
    var i := 0;
    assert wire[i..] == wire;
    if Cells(wire, 0, 0).Ok? {
      assert path + Cells(wire, 0, 0).value == Cells(wire, 0, 0).value;
    }
    while i < |wire|
      invariant 0 <= i <= |wire|
      invariant steps == |path| && LatestSteps(path, m)
      invariant Cells(wire, 0, 0) == Prefixed(path, Cells(wire[i..], x, y))
    {
      var delta := Direction(wire[i].dir);
      if delta.Err? {
        assert Cells(wire[i..], x, y) == Err(delta.error);
        return Err(delta.error);
      }
      var (w, h) := delta.value;
      CellsStep(wire, i, x, y, path);
      m, x, y, steps, path := RecordSegment(m, x, y, steps, w, h, wire[i].len, path);
      i := i + 1;
    }
    assert wire[i..] == [];
    return Ok(m);
  }

  /** The inner loop: `n` cells recorded from `(x, y)`, moving by `(w, h)`. */
  method RecordSegment(m: map<Cell, nat>, x: int, y: int, steps: nat, w: int, h: int, n: int, ghost path: seq<Cell>)
    returns (m': map<Cell, nat>, x': int, y': int, steps': nat, ghost path': seq<Cell>)
    requires steps == |path| && LatestSteps(path, m)
    ensures path' == path + Line(x, y, w, h, Count(n))
    ensures x' == x + Count(n) * w && y' == y + Count(n) * h
    ensures steps' == |path'| && LatestSteps(path', m')
  {
    m', x', y', steps', path' := m, x, y, steps, path;
    var j := 0;
    while j < n
      invariant 0 <= j <= Count(n)
      invariant x' == x + j * w && y' == y + j * h
      invariant path' == path + Line(x, y, w, h, j)
      invariant steps' == |path'| && LatestSteps(path', m')
    {
      RecordCell(path', m', (x', y'));
      m' := m'[(x', y') := steps'];
      path' := path' + [(x', y')];
      x', y', steps' := x' + w, y' + h, steps' + 1;
      j := j + 1;
      assert path' == path + Line(x, y, w, h, j);
    }
  }

  /** One segment of the walk moves its cells from the rest of the wire onto the path. */
  lemma CellsStep(wire: seq<Segment>, i: nat, x: int, y: int, p: seq<Cell>)
    requires i < |wire| && Direction(wire[i].dir).Ok?
    ensures var (w, h) := Direction(wire[i].dir).value;
      var n := Count(wire[i].len);
      Prefixed(p, Cells(wire[i..], x, y)) == Prefixed(p + Line(x, y, w, h, n), Cells(wire[i + 1..], x + n * w, y + n * h))
  {
    assert wire[i..][1..] == wire[i + 1..];
    var (w, h) := Direction(wire[i].dir).value;
    var n := Count(wire[i].len);
    var rest := Cells(wire[i + 1..], x + n * w, y + n * h);
    if rest.Ok? {
      assert p + (Line(x, y, w, h, n) + rest.value) == p + Line(x, y, w, h, n) + rest.value;
    }
  }

  /** Every recorded cell is at most as many steps from the start, in
      Manhattan distance, as the step at which it is recorded. */
  lemma {:induction false} CellsWithinReach(wire: seq<Segment>, x: int, y: int)
    requires Cells(wire, x, y).Ok?
    ensures WithinReach(Cells(wire, x, y).value, (x, y))
  {
    if wire != [] {
      var delta := Direction(wire[0].dir).value;
      var n := Count(wire[0].len);
      var x', y' := x + n * delta.0, y + n * delta.1;
      CellsWithinReach(wire[1..], x', y');
      LineReach(x, y, delta.0, delta.1, n);
      assert Cells(wire, x, y).value == Line(x, y, delta.0, delta.1, n) + Cells(wire[1..], x', y').value;
      ReachJoin(Line(x, y, delta.0, delta.1, n), Cells(wire[1..], x', y').value, x, y, x', y');
    }
  }

  /** Two walks joined where the first one's `|l|` steps end. */
  lemma ReachJoin(l: seq<Cell>, rest: seq<Cell>, x: int, y: int, x': int, y': int)
    requires WithinReach(l, (x, y)) && WithinReach(rest, (x', y'))
    requires Distance((x', y'), (x, y)) <= |l|
    ensures WithinReach(l + rest, (x, y))
  {
    forall k | |l| <= k < |l + rest|
      ensures Distance((l + rest)[k], (x, y)) <= k
    {
      assert (l + rest)[k] == rest[k - |l|];
    }
  }

  /** A unit step taken `i` times from `(x, y)` is `i` away, and so is the
      segment's end after `n` steps. */
  lemma LineReach(x: int, y: int, w: int, h: int, n: nat)
    requires (w, h) in {(0, 1), (0, -1), (1, 0), (-1, 0)}
    ensures WithinReach(Line(x, y, w, h, n), (x, y))
    ensures Distance((x + n * w, y + n * h), (x, y)) == n
  {
  }

  function Abs(a: int): nat { if a < 0 then -a else a }

  /** Manhattan distance. */
  function Distance(a: Cell, b: Cell): nat { Abs(a.0 - b.0) + Abs(a.1 - b.1) }

  /** Every cell of `path` is at most as many steps from `o` as its index. */
  predicate WithinReach(path: seq<Cell>, o: Cell)
  {
    forall k :: 0 <= k < |path| ==> Distance(path[k], o) <= k
  }

  /** A walk that records anything records its starting point first, at step 0. */
  lemma {:induction false} CellsStartAtStart(wire: seq<Segment>, x: int, y: int)
    requires Cells(wire, x, y).Ok? && Cells(wire, x, y).value != []
    ensures Cells(wire, x, y).value[0] == (x, y)
  {
    var delta := Direction(wire[0].dir).value;
    var n := Count(wire[0].len);
    if n == 0 {
      assert Cells(wire, x, y).value == Cells(wire[1..], x, y).value;
      CellsStartAtStart(wire[1..], x, y);
    }
  }

  // ---------------------------------------------------------------------
  // The crossings
  // ---------------------------------------------------------------------

  /** Cells on both wires with neither coordinate zero: every axis cell is
      left out, not only the origin. */
  function Crossings(m1: map<Cell, nat>, m2: map<Cell, nat>): set<Cell>
  {
    set c | c in m2 && c in m1 && c.0 != 0 && c.1 != 0
  }

  /** The least value of a non-empty map: one of its values, and at most every other. */
  ghost function MinValue(scores: map<Cell, int>): (r: int)
    requires scores != map[]
    ensures r in scores.Values
    ensures forall c :: c in scores ==> r <= scores[c]
    decreases scores.Keys
  {
    var c :| c in scores;
    var rest := scores - {c};
    assert forall d :: d in scores && d != c ==> d in rest;
    if rest == map[] then
      scores[c]
    else
      var m := MinValue(rest);
      if scores[c] <= m then scores[c] else m
  }

  /** `min().unwrap()` over the crossings' scores: the panic when there is no crossing. */
  datatype NoCrossing = NoCrossing

  /** Part 1: the least Manhattan distance from the origin of a crossing. */
  ghost function Part1(m1: map<Cell, nat>, m2: map<Cell, nat>): Result<int, NoCrossing>
  {
    var s := Crossings(m1, m2);
    if s == {} then Err(NoCrossing)
    else
      var c :| c in s;
      assert c in (map c | c in s :: Abs(c.0) + Abs(c.1));
      Ok(MinValue(map c | c in s :: Abs(c.0) + Abs(c.1)))
  }

  /** Part 2: the least sum of both wires' step counts at a crossing. */
  ghost function Part2(m1: map<Cell, nat>, m2: map<Cell, nat>): Result<int, NoCrossing>
  {
    var s := Crossings(m1, m2);
    if s == {} then Err(NoCrossing)
    else
      var c :| c in s;
      assert c in (map c | c in s :: m1[c] + m2[c]);
      Ok(MinValue(map c | c in s :: m1[c] + m2[c]))
  }

  /** Both parts panic exactly when there is no crossing; otherwise part 1
      is the distance of some crossing and no crossing is closer. */
  lemma Part1Minimal(m1: map<Cell, nat>, m2: map<Cell, nat>)
    ensures Part1(m1, m2).Err? <==> Crossings(m1, m2) == {}
    ensures Part2(m1, m2).Err? <==> Crossings(m1, m2) == {}
    ensures Part1(m1, m2).Ok? ==>
      && (exists c :: c in Crossings(m1, m2) && Part1(m1, m2).value == Abs(c.0) + Abs(c.1))
      && (forall c :: c in Crossings(m1, m2) ==> Part1(m1, m2).value <= Abs(c.0) + Abs(c.1))
  {
    var s := Crossings(m1, m2);
    if s != {} {
      var scores := map c | c in s :: Abs(c.0) + Abs(c.1);
      var r := Part1(m1, m2).value;
      assert r == MinValue(scores);
      assert r in scores.Values;
      var c :| c in scores && scores[c] == r;
      assert c in s;
      forall d | d in s
        ensures r <= Abs(d.0) + Abs(d.1)
      {
        assert scores[d] == Abs(d.0) + Abs(d.1);
      }
    }
  }

  /** Part 2 is the step sum of some crossing and no crossing has a smaller one. */
  lemma Part2Minimal(m1: map<Cell, nat>, m2: map<Cell, nat>)
    requires Crossings(m1, m2) != {}
    ensures Part2(m1, m2).Ok?
    ensures exists c :: c in Crossings(m1, m2) && Part2(m1, m2).value == m1[c] + m2[c]
    ensures forall c :: c in Crossings(m1, m2) ==> Part2(m1, m2).value <= m1[c] + m2[c]
  {
    var s := Crossings(m1, m2);
    var scores := map c | c in s :: m1[c] + m2[c];
    var r := Part2(m1, m2).value;
    assert r == MinValue(scores);
    assert r in scores.Values;
    var c :| c in scores && scores[c] == r;
    assert c in s;
    forall d | d in s
      ensures r <= m1[d] + m2[d]
    {
      assert scores[d] == m1[d] + m2[d];
    }
  }

  /** For walked wires, a crossing is never reached in fewer steps than its
      distance, so the part-2 answer is at least the part-1 answer, and
      both are at least 2. */
  lemma StepsAtLeastDistance(wire1: seq<Segment>, wire2: seq<Segment>, m1: map<Cell, nat>, m2: map<Cell, nat>)
    requires Cells(wire1, 0, 0).Ok? && LatestSteps(Cells(wire1, 0, 0).value, m1)
    requires Cells(wire2, 0, 0).Ok? && LatestSteps(Cells(wire2, 0, 0).value, m2)
    requires Crossings(m1, m2) != {}
    ensures 2 <= Part1(m1, m2).value <= Part2(m1, m2).value
  {
    CellsWithinReach(wire1, 0, 0);
    CrossingsBeyondReach(Cells(wire1, 0, 0).value, m1, m2);
  }

  /** The same when the first wire is any path from the origin that moves
      one cell per step. */
  lemma CrossingsBeyondReach(p1: seq<Cell>, m1: map<Cell, nat>, m2: map<Cell, nat>)
    requires LatestSteps(p1, m1) && WithinReach(p1, (0, 0))
    requires Crossings(m1, m2) != {}
    ensures 2 <= Part1(m1, m2).value <= Part2(m1, m2).value
  {
    Part1Minimal(m1, m2);
    Part2Minimal(m1, m2);
    var r1, r2 := Part1(m1, m2).value, Part2(m1, m2).value;
    var d :| d in Crossings(m1, m2) && r1 == Abs(d.0) + Abs(d.1);
    OffAxes(m1, m2, d);
    var c :| c in Crossings(m1, m2) && r2 == m1[c] + m2[c];
    StepsReach(p1, m1, c);
    assert r1 <= Abs(c.0) + Abs(c.1) <= m1[c] <= r2;
  }

  /** A crossing is on both wires and on neither axis, so at least 2 from the origin. */
  lemma OffAxes(m1: map<Cell, nat>, m2: map<Cell, nat>, c: Cell)
    requires c in Crossings(m1, m2)
    ensures c in m1 && c in m2 && 2 <= Abs(c.0) + Abs(c.1)
  {
  }

  /** A cell recorded at step `k` of a walk from the origin is at most `k` away. */
  lemma StepsReach(path: seq<Cell>, m: map<Cell, nat>, c: Cell)
    requires LatestSteps(path, m) && c in m
    requires WithinReach(path, (0, 0))
    ensures Abs(c.0) + Abs(c.1) <= m[c]
  {
    assert path[m[c]] == c;
  }
}
