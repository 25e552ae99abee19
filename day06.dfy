/** The orbit map: each line "A)B" says B orbits A. The map from a body to
    the bodies orbiting it is built line by line; the centre is the body
    that orbits nothing; a depth-first walk from it adds up every body's
    depth (the direct and indirect orbits) and records the path to the
    bodies YOU and SAN orbit; the transfers between them are counted as
    the symmetric difference of those two paths. */
module Day06 {
  import opened Wrappers

  type Node = string

  /** A body and the bodies that orbit it, in input order. */
  type Orbits = map<Node, seq<Node>>

  // ---------------------------------------------------------------------
  // Building the map
  // ---------------------------------------------------------------------

  /** The second halves of the lines whose first half is `a`, in line order. */
  function ChildrenOf(lines: seq<(Node, Node)>, a: Node): seq<Node>
  {
    if lines == [] then []
    else
      var last := lines[|lines| - 1];
      ChildrenOf(lines[..|lines| - 1], a) + (if last.0 == a then [last.1] else [])
  }

  /** `b` orbits `a` according to the list exactly when the line "a)b" is there. */
  lemma {:induction false} ChildrenOfLines(lines: seq<(Node, Node)>, a: Node, b: Node)
    ensures b in ChildrenOf(lines, a) <==> (a, b) in lines
  {
    if lines != [] {
      var init := lines[..|lines| - 1];
      ChildrenOfLines(init, a, b);
      assert lines == init + [lines[|lines| - 1]];
    }
  }

  /** The loop over the lines that appends each line's orbiter to its centre's list. */
  method BuildOrbits(lines: seq<(Node, Node)>) returns (orbits: Orbits)
    ensures forall a :: a in orbits <==> exists i :: 0 <= i < |lines| && lines[i].0 == a
    ensures forall a :: a in orbits ==> orbits[a] == ChildrenOf(lines, a)
  {
    orbits := map[];
    for k := 0 to |lines|
      invariant Built(lines[..k], orbits)
    {
      var (a, b) := lines[k];
      ghost var before := orbits;
      orbits := orbits[a := (if a in orbits then orbits[a] else []) + [b]];
      assert lines[..k + 1] == lines[..k] + [(a, b)];
      BuildStep(lines[..k], a, b, before, orbits);
    }
    assert lines[..|lines|] == lines;
  }

  /** `orbits` is the map the loop has built from `lines`. */
  ghost predicate Built(lines: seq<(Node, Node)>, orbits: Orbits)
  {
    && (forall a :: a in orbits <==> exists i :: 0 <= i < |lines| && lines[i].0 == a)
    && (forall a :: a in orbits ==> orbits[a] == ChildrenOf(lines, a))
  }

  /** One more line appends its orbiter to its centre's list. */
  lemma BuildStep(lines: seq<(Node, Node)>, a: Node, b: Node, before: Orbits, after: Orbits)
    requires Built(lines, before)
    requires after == before[a := (if a in before then before[a] else []) + [b]]
    ensures Built(lines + [(a, b)], after)
  {
    var lines' := lines + [(a, b)];
    assert lines'[..|lines|] == lines;
    forall c
      ensures c in after <==> exists i :: 0 <= i < |lines'| && lines'[i].0 == c
    {
      if c == a {
        assert lines'[|lines|].0 == c;
      } else if c in before {
        var i :| 0 <= i < |lines| && lines[i].0 == c;
        assert lines'[i].0 == c;
      }
      if c != a && exists i :: 0 <= i < |lines'| && lines'[i].0 == c {
        var i :| 0 <= i < |lines'| && lines'[i].0 == c;
        assert lines[i].0 == c;
      }
    }
    if a !in before {
      ChildrenAbsent(lines, a);
    }
    forall c | c in after
      ensures after[c] == ChildrenOf(lines', c)
    {
      assert ChildrenOf(lines', c) == ChildrenOf(lines, c) + (if c == a then [b] else []);
    }
  }

  /** A body no line starts with has no orbiters. */
  lemma {:induction false} ChildrenAbsent(lines: seq<(Node, Node)>, a: Node)
    requires forall i :: 0 <= i < |lines| ==> lines[i].0 != a
    ensures ChildrenOf(lines, a) == []
  {
    if lines != [] {
      ChildrenAbsent(lines[..|lines| - 1], a);
    }
  }

  // ---------------------------------------------------------------------
  // The centre
  // ---------------------------------------------------------------------

  /** `unwrap` of the first body that is a key but nobody's orbiter, when there is none. */
  datatype NoRoot = NoRoot

  /** Keys minus every listed orbiter, and one element of what is left; which
      one is unspecified, as in a hash set. */
  method FindRoot(orbits: Orbits) returns (r: Result<Node, NoRoot>)
    ensures r.Ok? ==> r.value in orbits && forall a :: a in orbits ==> r.value !in orbits[a]
    ensures r.Err? <==> forall k :: k in orbits ==> exists a :: a in orbits && k in orbits[a]
  {
    var values := set a, c | a in orbits && c in orbits[a] :: c;
    var roots := orbits.Keys - values;
    if roots == {} {
      forall k | k in orbits
        ensures exists a :: a in orbits && k in orbits[a]
      {
        assert k !in roots;
        assert k in values;
      }
      return Err(NoRoot);
    }
    var root :| root in roots;
    return Ok(root);
  }

  // ---------------------------------------------------------------------
  // The depth-first walk
  // ---------------------------------------------------------------------

  /** A stack entry: a body, its depth, and the path from the centre to it. */
  datatype Entry = Entry(node: Node, depth: nat, path: seq<Node>)

  /** What the walk accumulates: the depth sum and the two recorded paths. */
  datatype Found = Found(part1: nat, you: set<Node>, san: set<Node>)

  /** The walk popped more entries than its fuel allows. */
  datatype Exhausted = Exhausted

  function Kids(o: Orbits, n: Node): seq<Node>
  {
    if n in o then o[n] else []
  }

  function Elements(p: seq<Node>): set<Node>
  {
    set x | x in p
  }

  /** Meeting orbiter `k` of the popped entry: YOU or SAN record the entry's path. */
  function Visit(k: Node, e: Entry, f: Found): Found
  {
    if k == "YOU" then f.(you := Elements(e.path))
    else if k == "SAN" then f.(san := Elements(e.path))
    else f
  }

  /** The inner loop over the orbiters of the popped entry: each is visited
      and pushed one level deeper with the path extended by it. */
  function Push(kids: seq<Node>, e: Entry, f: Found, stack: seq<Entry>): (Found, seq<Entry>)
  {
    if kids == [] then (f, stack)
    else Push(kids[1..], e, Visit(kids[0], e, f), stack + [Entry(kids[0], e.depth + 1, e.path + [kids[0]])])
  }

  /** The first orbiter of a push: visited, then pushed. */
  lemma PushFirst(kids: seq<Node>, e: Entry, f: Found, stack: seq<Entry>)
    requires kids != []
    ensures Push(kids, e, f, stack) ==
      Push(kids[1..], e, Visit(kids[0], e, f), stack + [Entry(kids[0], e.depth + 1, e.path + [kids[0]])])
  {
  }

  /** The walk: pop the last entry, add its depth, push its orbiters; at most `fuel` pops. */
  function Dfs(o: Orbits, stack: seq<Entry>, f: Found, fuel: nat): Result<Found, Exhausted>
    decreases fuel
  {
    if stack == [] then Ok(f)
    else if fuel == 0 then Err(Exhausted)
    else
      var e := stack[|stack| - 1];
      var (f', s') := Push(Kids(o, e.node), e, f.(part1 := f.part1 + e.depth), stack[..|stack| - 1]);
      Dfs(o, s', f', fuel - 1)
  }

  /** The walk from the centre at depth 0, with the path holding just the centre. */
  function Orbit(o: Orbits, root: Node, fuel: nat): Result<Found, Exhausted>
  {
    Dfs(o, [Entry(root, 0, [root])], Found(0, {}, {}), fuel)
  }

  /** The walk of `main` with its stack of entries. */
  method Traverse(o: Orbits, root: Node, fuel: nat) returns (r: Result<Found, Exhausted>)
    ensures r == Orbit(o, root, fuel)
  {
    var part1: nat := 0;
    var nodes := [Entry(root, 0, [root])];
    var san: set<Node> := {};
    var you: set<Node> := {};
    var left := fuel;
    while nodes != []
      invariant Dfs(o, nodes, Found(part1, you, san), left) == Orbit(o, root, fuel)
      decreases left
    {
      if left == 0 {
        return Err(Exhausted);
      }
      var e := nodes[|nodes| - 1];
      nodes := nodes[..|nodes| - 1];
      part1 := part1 + e.depth;
      var list := Kids(o, e.node);
      ghost var start := Push(list, e, Found(part1, you, san), nodes);
      for j := 0 to |list|
        invariant Push(list[j..], e, Found(part1, you, san), nodes) == start
      {
        var i := list[j];
        PushFirst(list[j..], e, Found(part1, you, san), nodes);
        assert list[j..][1..] == list[j + 1..];
        if i == "YOU" {
          you := Elements(e.path);
        } else if i == "SAN" {
          san := Elements(e.path);
        }
        nodes := nodes + [Entry(i, e.depth + 1, e.path + [i])];
      }
      assert list[|list|..] == [];
      left := left - 1;
    }
    return Ok(Found(part1, you, san));
  }

  /** Part 2: how many bodies lie on exactly one of the two recorded paths. */
  function Part2(f: Found): nat
  {
    |(f.you - f.san) + (f.san - f.you)|
  }

  // ---------------------------------------------------------------------
  // What the walk adds up
  // ---------------------------------------------------------------------

  /** The depth sum of the tree under `n`, recursively: `n`'s depth plus the
      sums under its orbiters. `None` when the tree is more than `h` levels deep. */
  function Total(o: Orbits, n: Node, depth: nat, h: nat): Option<nat>
    decreases h, 0
  {
    if h == 0 then None
    else
      match TotalList(o, Kids(o, n), depth + 1, h - 1)
      case None => None
      case Some(s) => Some(depth + s)
  }

  function TotalList(o: Orbits, kids: seq<Node>, depth: nat, h: nat): Option<nat>
    decreases h, 1, |kids|
  {
    if kids == [] then Some(0)
    else Add(Total(o, kids[0], depth, h), TotalList(o, kids[1..], depth, h))
  }

  function Add(a: Option<nat>, b: Option<nat>): Option<nat>
  {
    if a.Some? && b.Some? then Some(a.value + b.value) else None
  }

  /** The depth sums still owed by the entries of a stack, within `h` levels of the centre. */
  function Pending(o: Orbits, stack: seq<Entry>, h: nat): Option<nat>
  {
    if stack == [] then Some(0)
    else
      var e := stack[0];
      Add(if e.depth <= h then Total(o, e.node, e.depth, h - e.depth) else None, Pending(o, stack[1..], h))
  }

  lemma {:induction false} PendingAppend(o: Orbits, a: seq<Entry>, b: seq<Entry>, h: nat)
    ensures Pending(o, a + b, h) == Add(Pending(o, a, h), Pending(o, b, h))
  {
    if a == [] {
      assert a + b == b;
    } else {
      assert (a + b)[1..] == a[1..] + b;
      PendingAppend(o, a[1..], b, h);
    }
  }

  /** The entries the inner loop pushes for `kids`. */
  function KidEntries(kids: seq<Node>, e: Entry): seq<Entry>
  {
    if kids == [] then [] else [Entry(kids[0], e.depth + 1, e.path + [kids[0]])] + KidEntries(kids[1..], e)
  }

  /** The inner loop appends the entries of the orbiters and leaves the depth sum alone. */
  lemma {:induction false} PushAppends(kids: seq<Node>, e: Entry, f: Found, stack: seq<Entry>)
    ensures Push(kids, e, f, stack).1 == stack + KidEntries(kids, e)
    ensures Push(kids, e, f, stack).0.part1 == f.part1
  {
    if kids != [] {
      var k := kids[0];
      PushAppends(kids[1..], e, Visit(k, e, f), stack + [Entry(k, e.depth + 1, e.path + [k])]);
      assert stack + [Entry(k, e.depth + 1, e.path + [k])] + KidEntries(kids[1..], e) == stack + KidEntries(kids, e);
    }
  }

  /** What the pushed orbiters owe is the sum over the orbiters one level down. */
  lemma {:induction false} PendingKids(o: Orbits, kids: seq<Node>, e: Entry, h: nat)
    requires e.depth < h
    ensures Pending(o, KidEntries(kids, e), h) == TotalList(o, kids, e.depth + 1, h - e.depth - 1)
  {
    if kids != [] {
      PendingKids(o, kids[1..], e, h);
    }
  }

  /** Popping an entry settles its depth and hands what its orbiters owe to the stack. */
  lemma PopSettles(o: Orbits, rest: seq<Entry>, e: Entry, h: nat)
    requires Pending(o, rest + [e], h).Some?
    ensures var p := Pending(o, rest + KidEntries(Kids(o, e.node), e), h);
      p.Some? && e.depth + p.value == Pending(o, rest + [e], h).value
  {
    var kids := Kids(o, e.node);
    PendingAppend(o, rest, [e], h);
    assert Pending(o, [e], h).Some?;
    assert e.depth < h;
    PendingAppend(o, rest, KidEntries(kids, e), h);
    PendingKids(o, kids, e, h);
  }

  /** A finished walk has added up exactly what its stack owed. */
  lemma {:induction false} DfsSettles(o: Orbits, stack: seq<Entry>, f: Found, fuel: nat, h: nat)
    requires Dfs(o, stack, f, fuel).Ok? && Pending(o, stack, h).Some?
    ensures Dfs(o, stack, f, fuel).value.part1 == f.part1 + Pending(o, stack, h).value
    decreases fuel
  {
    if stack != [] {
      var e := stack[|stack| - 1];
      var rest := stack[..|stack| - 1];
      assert stack == rest + [e];
      var pushed := Push(Kids(o, e.node), e, f.(part1 := f.part1 + e.depth), rest);
      assert Dfs(o, stack, f, fuel) == Dfs(o, pushed.1, pushed.0, fuel - 1);
      PushAppends(Kids(o, e.node), e, f.(part1 := f.part1 + e.depth), rest);
      PopSettles(o, rest, e, h);
      DfsSettles(o, pushed.1, pushed.0, fuel - 1, h);
    }
  }

  /** Part 1 is the total number of direct and indirect orbits: on a tree of
      at most `h` levels, the finished walk's depth sum is the recursive
      depth sum of the tree under the centre. */
  lemma OrbitCount(o: Orbits, root: Node, fuel: nat, h: nat)
    requires Orbit(o, root, fuel).Ok? && Total(o, root, 0, h).Some?
    ensures Orbit(o, root, fuel).value.part1 == Total(o, root, 0, h).value
  {
    DfsSettles(o, [Entry(root, 0, [root])], Found(0, {}, {}), fuel, h);
  }

  // ---------------------------------------------------------------------
  // What the walk records for YOU and SAN
  // ---------------------------------------------------------------------

  /** `p` runs from the centre down the orbit map, each body orbiting the one before. */
  predicate Walk(o: Orbits, root: Node, p: seq<Node>)
  {
    && |p| > 0 && p[0] == root
    && forall i :: 0 <= i < |p| - 1 ==> p[i + 1] in Kids(o, p[i])
  }

  /** The set is still empty, or it holds exactly the bodies of a walk from
      the centre to a body that `target` orbits. */
  ghost predicate RecordedPath(o: Orbits, root: Node, s: set<Node>, target: Node)
  {
    s == {} || exists p :: Walk(o, root, p) && target in Kids(o, p[|p| - 1]) && s == Elements(p)
  }

  /** Every entry's path is a walk from the centre ending at its body, one
      longer than its depth. */
  predicate StackWalks(o: Orbits, root: Node, stack: seq<Entry>)
  {
    forall i :: 0 <= i < |stack| ==>
      Walk(o, root, stack[i].path) && stack[i].path[|stack[i].path| - 1] == stack[i].node
  }

  ghost predicate FoundPaths(o: Orbits, root: Node, f: Found)
  {
    RecordedPath(o, root, f.you, "YOU") && RecordedPath(o, root, f.san, "SAN")
  }

  /** The inner loop keeps the stack's paths walks and records only walks. */
  lemma {:induction false} PushKeepsPaths(o: Orbits, root: Node, kids: seq<Node>, e: Entry, f: Found, stack: seq<Entry>)
    requires Walk(o, root, e.path) && e.path[|e.path| - 1] == e.node
    requires forall k :: k in kids ==> k in Kids(o, e.node)
    requires StackWalks(o, root, stack) && FoundPaths(o, root, f)
    ensures StackWalks(o, root, Push(kids, e, f, stack).1) && FoundPaths(o, root, Push(kids, e, f, stack).0)
  {
    if kids != [] {
      var k := kids[0];
      var p := e.path + [k];
      assert Walk(o, root, p) by {
        forall i | 0 <= i < |p| - 1
          ensures p[i + 1] in Kids(o, p[i])
        {
          if i < |p| - 2 {
            assert p[i] == e.path[i] && p[i + 1] == e.path[i + 1];
          }
        }
      }
      var s' := stack + [Entry(k, e.depth + 1, p)];
      assert StackWalks(o, root, s') by {
        forall i | 0 <= i < |s'|
          ensures Walk(o, root, s'[i].path) && s'[i].path[|s'[i].path| - 1] == s'[i].node
        {
          if i < |stack| {
            assert s'[i] == stack[i];
          }
        }
      }
      assert FoundPaths(o, root, Visit(k, e, f));
      PushKeepsPaths(o, root, kids[1..], e, Visit(k, e, f), s');
    }
  }

  lemma {:induction false} DfsKeepsPaths(o: Orbits, root: Node, stack: seq<Entry>, f: Found, fuel: nat)
    requires StackWalks(o, root, stack) && FoundPaths(o, root, f)
    requires Dfs(o, stack, f, fuel).Ok?
    ensures FoundPaths(o, root, Dfs(o, stack, f, fuel).value)
    decreases fuel
  {
    if stack != [] {
      var e := stack[|stack| - 1];
      var rest := stack[..|stack| - 1];
      assert StackWalks(o, root, rest) by {
        forall i | 0 <= i < |rest|
          ensures Walk(o, root, rest[i].path) && rest[i].path[|rest[i].path| - 1] == rest[i].node
        {
          assert rest[i] == stack[i];
        }
      }
      PushKeepsPaths(o, root, Kids(o, e.node), e, f.(part1 := f.part1 + e.depth), rest);
      var (f', s') := Push(Kids(o, e.node), e, f.(part1 := f.part1 + e.depth), rest);
      DfsKeepsPaths(o, root, s', f', fuel - 1);
    }
  }

  /** The recorded YOU and SAN sets are empty or are the bodies on a path
      from the centre down to a body YOU (or SAN) orbits, both ends included;
      `OrbitRecordsReached` below rules out the empty set when such a path exists. */
  lemma OrbitRecordsPaths(o: Orbits, root: Node, fuel: nat)
    requires Orbit(o, root, fuel).Ok?
    ensures FoundPaths(o, root, Orbit(o, root, fuel).value)
  {
    var p := [root];
    assert Walk(o, root, p);
    assert StackWalks(o, root, [Entry(root, 0, p)]);
    DfsKeepsPaths(o, root, [Entry(root, 0, p)], Found(0, {}, {}), fuel);
  }

  /** The set kept for `target`, YOU or SAN. */
  function RecordOf(f: Found, target: Node): set<Node>
  {
    if target == "YOU" then f.you else f.san
  }

  /** `target` orbits `n` or a body at most `d` levels below it. */
  predicate Reaches(o: Orbits, n: Node, target: Node, d: nat)
    decreases d
  {
    target in Kids(o, n) || (d > 0 && exists k :: k in Kids(o, n) && Reaches(o, k, target, d - 1))
  }

  /** A walk from `root` to a body `target` orbits shows that `target` is reached from `root`. */
  lemma {:induction false} WalkReaches(o: Orbits, root: Node, p: seq<Node>, target: Node)
    requires Walk(o, root, p) && target in Kids(o, p[|p| - 1])
    ensures Reaches(o, root, target, |p| - 1)
    decreases |p|
  {
    if |p| > 1 {
      var tail := p[1..];
      assert Walk(o, p[1], tail) by {
        forall i | 0 <= i < |tail| - 1
          ensures tail[i + 1] in Kids(o, tail[i])
        {
          assert tail[i] == p[i + 1] && tail[i + 1] == p[i + 2];
        }
      }
      WalkReaches(o, p[1], tail, target);
      assert p[1] in Kids(o, root);
    }
  }

  /** Every entry on the stack carries a non-empty path. */
  predicate PathsNonEmpty(stack: seq<Entry>)
  {
    forall i :: 0 <= i < |stack| ==> stack[i].path != []
  }

  /** The entries pushed for `kids`, one per orbiter, in order. */
  lemma {:induction false} KidEntriesAt(kids: seq<Node>, e: Entry)
    ensures |KidEntries(kids, e)| == |kids|
    ensures forall j :: 0 <= j < |kids| ==> KidEntries(kids, e)[j] == Entry(kids[j], e.depth + 1, e.path + [kids[j]])
  {
    if kids != [] {
      KidEntriesAt(kids[1..], e);
    }
  }

  /** The inner loop records `target` when `target` is among the orbiters,
      and a set it already recorded stays non-empty. */
  lemma {:induction false} PushRecords(kids: seq<Node>, e: Entry, f: Found, stack: seq<Entry>, target: Node)
    requires target == "YOU" || target == "SAN"
    requires e.path != []
    requires RecordOf(f, target) != {} || target in kids
    ensures RecordOf(Push(kids, e, f, stack).0, target) != {}
  {
    if kids != [] {
      var k := kids[0];
      var f' := Visit(k, e, f);
      assert e.path[0] in Elements(e.path);
      if k != target {
        assert target in kids ==> target in kids[1..];
      }
      PushRecords(kids[1..], e, f', stack + [Entry(k, e.depth + 1, e.path + [k])], target);
    }
  }

  /** What the walk does with the last entry: its depth settled, its orbiters visited and pushed. */
  function Pop(o: Orbits, stack: seq<Entry>, f: Found): (Found, seq<Entry>)
    requires stack != []
  {
    var e := stack[|stack| - 1];
    Push(Kids(o, e.node), e, f.(part1 := f.part1 + e.depth), stack[..|stack| - 1])
  }

  /** `target` is recorded already, or some entry on the stack reaches it. */
  ghost predicate Owed(o: Orbits, stack: seq<Entry>, f: Found, target: Node)
  {
    RecordOf(f, target) != {} || exists i, d: nat :: 0 <= i < |stack| && Reaches(o, stack[i].node, target, d)
  }

  /** A pop keeps every path on the stack non-empty. */
  lemma PopKeepsNonEmpty(o: Orbits, stack: seq<Entry>, f: Found)
    requires stack != [] && PathsNonEmpty(stack)
    ensures PathsNonEmpty(Pop(o, stack, f).1)
  {
    var e := stack[|stack| - 1];
    var rest := stack[..|stack| - 1];
    var kids := Kids(o, e.node);
    PushAppends(kids, e, f.(part1 := f.part1 + e.depth), rest);
    KidEntriesAt(kids, e);
    var s' := Pop(o, stack, f).1;
    forall i | 0 <= i < |s'|
      ensures s'[i].path != []
    {
      if i < |rest| {
        assert s'[i] == stack[i];
      } else {
        assert s'[i] == KidEntries(kids, e)[i - |rest|];
      }
    }
  }

  /** A pop either records `target` or leaves an entry that reaches it. */
  lemma PopKeepsOwed(o: Orbits, stack: seq<Entry>, f: Found, target: Node)
    requires target == "YOU" || target == "SAN"
    requires stack != [] && PathsNonEmpty(stack) && Owed(o, stack, f, target)
    ensures Owed(o, Pop(o, stack, f).1, Pop(o, stack, f).0, target)
  {
    var e := stack[|stack| - 1];
    var rest := stack[..|stack| - 1];
    var kids := Kids(o, e.node);
    var f0 := f.(part1 := f.part1 + e.depth);
    var (f', s') := Pop(o, stack, f);
    PushAppends(kids, e, f0, rest);
    KidEntriesAt(kids, e);
    assert e.path != [];
    if RecordOf(f, target) != {} {
      PushRecords(kids, e, f0, rest, target);
    } else {
      var i, d: nat :| 0 <= i < |stack| && Reaches(o, stack[i].node, target, d);
      if i < |rest| {
        assert s'[i] == stack[i];
      } else if target in kids {
        PushRecords(kids, e, f0, rest, target);
      } else {
        var k :| k in kids && Reaches(o, k, target, d - 1);
        var j :| 0 <= j < |kids| && kids[j] == k;
        assert s'[|rest| + j].node == k;
      }
    }
  }

  /** A finished walk records `target` once some entry on its stack reaches it. */
  lemma {:induction false} DfsRecords(o: Orbits, stack: seq<Entry>, f: Found, fuel: nat, target: Node)
    requires target == "YOU" || target == "SAN"
    requires Dfs(o, stack, f, fuel).Ok? && PathsNonEmpty(stack) && Owed(o, stack, f, target)
    ensures RecordOf(Dfs(o, stack, f, fuel).value, target) != {}
    decreases fuel
  {
    if stack != [] {
      var (f', s') := Pop(o, stack, f);
      assert Dfs(o, stack, f, fuel) == Dfs(o, s', f', fuel - 1);
      PopKeepsNonEmpty(o, stack, f);
      PopKeepsOwed(o, stack, f, target);
      DfsRecords(o, s', f', fuel - 1, target);
    }
  }

  /** Conversely, a finished walk does record YOU (or SAN) whenever a walk
      from the centre leads to a body YOU (or SAN) orbits. */
  lemma OrbitRecordsReached(o: Orbits, root: Node, fuel: nat, p: seq<Node>, target: Node)
    requires target == "YOU" || target == "SAN"
    requires Orbit(o, root, fuel).Ok?
    requires Walk(o, root, p) && target in Kids(o, p[|p| - 1])
    ensures RecordOf(Orbit(o, root, fuel).value, target) != {}
  {
    WalkReaches(o, root, p, target);
    var stack := [Entry(root, 0, [root])];
    assert Reaches(o, stack[0].node, target, |p| - 1);
    DfsRecords(o, stack, Found(0, {}, {}), fuel, target);
  }

  // ---------------------------------------------------------------------
  // Part 2 as a transfer count
  // ---------------------------------------------------------------------

  predicate Distinct(p: seq<Node>)
  {
    forall i, j :: 0 <= i < j < |p| ==> p[i] != p[j]
  }

  lemma {:induction false} DistinctSize(p: seq<Node>)
    requires Distinct(p)
    ensures |Elements(p)| == |p|
  {
    if p != [] {
      var init := p[..|p| - 1];
      DistinctSize(init);
      assert Elements(p) == Elements(init) + {p[|p| - 1]};
      assert p[|p| - 1] !in Elements(init);
    }
  }

  /** A path is its first `c` bodies and the rest; without repeats the two share none. */
  lemma SplitElements(p: seq<Node>, c: nat)
    requires Distinct(p) && c <= |p|
    ensures Elements(p) == Elements(p[..c]) + Elements(p[c..])
    ensures Elements(p[..c]) !! Elements(p[c..])
    ensures Distinct(p[c..])
  {
    assert p == p[..c] + p[c..];
  }

  /** Sets sharing `a` and otherwise disjoint differ by exactly their own parts. */
  lemma SharedPart(a: set<Node>, x: set<Node>, y: set<Node>)
    requires a !! x && a !! y && x !! y
    ensures |((a + x) - (a + y)) + ((a + y) - (a + x))| == |x| + |y|
  {
    assert ((a + x) - (a + y)) + ((a + y) - (a + x)) == x + y;
  }

  /** Two paths without repeats that share their first `c` bodies and
      nothing after: the bodies on exactly one of them are the `|p| - c`
      and `|q| - c` bodies past the last common one, the number of
      transfers between the two ends. */
  lemma TransferCount(p: seq<Node>, q: seq<Node>, c: nat)
    requires Distinct(p) && Distinct(q)
    requires c <= |p| && c <= |q| && p[..c] == q[..c]
    requires Elements(p[c..]) !! Elements(q[c..])
    ensures |(Elements(p) - Elements(q)) + (Elements(q) - Elements(p))| == |p| + |q| - 2 * c
  {
    SplitElements(p, c);
    SplitElements(q, c);
    SharedPart(Elements(p[..c]), Elements(p[c..]), Elements(q[c..]));
    DistinctSize(p[c..]);
    DistinctSize(q[c..]);
  }

  // ---------------------------------------------------------------------
  // Part 2 of the walk, when every body has one centre
  // ---------------------------------------------------------------------

  /** Every body orbits at most one other, and the centre orbits nothing. */
  ghost predicate SingleCentres(o: Orbits, root: Node)
  {
    && (forall a, b, x :: x in Kids(o, a) && x in Kids(o, b) ==> a == b)
    && (forall a :: root !in Kids(o, a))
  }

  /** Dropping the last body of a walk leaves a walk. */
  lemma WalkPrefix(o: Orbits, root: Node, p: seq<Node>, n: nat)
    requires Walk(o, root, p) && 0 < n <= |p|
    ensures Walk(o, root, p[..n])
  {
  }

  /** With one centre per body a walk meets the centre only at its start. */
  lemma CentreOnlyFirst(o: Orbits, root: Node, p: seq<Node>)
    requires SingleCentres(o, root) && Walk(o, root, p)
    ensures forall i :: 0 < i < |p| ==> p[i] != root
  {
    forall i | 0 < i < |p|
      ensures p[i] != root
    {
      assert p[i] in Kids(o, p[i - 1]);
    }
  }

  /** With one centre per body there is only one walk from the centre to a body. */
  lemma {:induction false} WalkUnique(o: Orbits, root: Node, p: seq<Node>, q: seq<Node>)
    requires SingleCentres(o, root)
    requires Walk(o, root, p) && Walk(o, root, q) && p[|p| - 1] == q[|q| - 1]
    ensures p == q
    decreases |p|
  {
    CentreOnlyFirst(o, root, p);
    CentreOnlyFirst(o, root, q);
    if |p| == 1 && |q| == 1 {
    } else if |p| == 1 || |q| == 1 {
      assert false;
    } else {
      assert p[|p| - 1] in Kids(o, p[|p| - 2]) && q[|q| - 1] in Kids(o, q[|q| - 2]);
      WalkPrefix(o, root, p, |p| - 1);
      WalkPrefix(o, root, q, |q| - 1);
      WalkUnique(o, root, p[..|p| - 1], q[..|q| - 1]);
      assert p == p[..|p| - 1] + [p[|p| - 1]];
      assert q == q[..|q| - 1] + [q[|q| - 1]];
    }
  }

  /** With one centre per body a walk never repeats a body. */
  lemma WalkDistinct(o: Orbits, root: Node, p: seq<Node>)
    requires SingleCentres(o, root) && Walk(o, root, p)
    ensures Distinct(p)
  {
    forall i, j | 0 <= i < j < |p|
      ensures p[i] != p[j]
    {
      if p[i] == p[j] {
        WalkPrefix(o, root, p, i + 1);
        WalkPrefix(o, root, p, j + 1);
        WalkUnique(o, root, p[..i + 1], p[..j + 1]);
      }
    }
  }

  /** The length of the longest common prefix of `p` and `q`. */
  function Shared(p: seq<Node>, q: seq<Node>): (c: nat)
    ensures c <= |p| && c <= |q| && p[..c] == q[..c]
    ensures c == |p| || c == |q| || p[c] != q[c]
  {
    if p == [] || q == [] || p[0] != q[0] then 0
    else
      var c := Shared(p[1..], q[1..]);
      assert p[..c + 1] == [p[0]] + p[1..][..c];
      assert q[..c + 1] == [q[0]] + q[1..][..c];
      c + 1
  }

  /** Two walks from the centre that meet at a body agree up to it. */
  lemma WalksMeet(o: Orbits, root: Node, p: seq<Node>, q: seq<Node>, i: nat, j: nat)
    requires SingleCentres(o, root) && Walk(o, root, p) && Walk(o, root, q)
    requires i < |p| && j < |q| && p[i] == q[j]
    ensures i == j && forall k :: 0 <= k <= i ==> p[k] == q[k]
  {
    WalkPrefix(o, root, p, i + 1);
    WalkPrefix(o, root, q, j + 1);
    WalkUnique(o, root, p[..i + 1], q[..j + 1]);
    forall k | 0 <= k <= i
      ensures p[k] == q[k]
    {
      assert p[k] == p[..i + 1][k];
    }
  }

  /** Two walks from the centre part for good after their common prefix. */
  lemma PartedTails(o: Orbits, root: Node, p: seq<Node>, q: seq<Node>)
    requires SingleCentres(o, root) && Walk(o, root, p) && Walk(o, root, q)
    ensures Elements(p[Shared(p, q)..]) !! Elements(q[Shared(p, q)..])
  {
    var c := Shared(p, q);
    forall x | x in Elements(p[c..]) && x in Elements(q[c..])
      ensures false
    {
      var i :| c <= i < |p| && p[i] == x;
      var j :| c <= j < |q| && q[j] == x;
      WalksMeet(o, root, p, q, i, j);
    }
  }

  /** The walk's part 2 counts the orbital transfers: when every body has
      one centre, the recorded sets are exactly the bodies on the walks from
      the centre to the bodies YOU and SAN orbit, and part 2 is the number
      of steps from each of those two bodies back to the last body the walks
      share. */
  lemma OrbitTransfers(o: Orbits, root: Node, fuel: nat, p: seq<Node>, q: seq<Node>)
    requires SingleCentres(o, root) && Orbit(o, root, fuel).Ok?
    requires Walk(o, root, p) && "YOU" in Kids(o, p[|p| - 1])
    requires Walk(o, root, q) && "SAN" in Kids(o, q[|q| - 1])
    ensures Orbit(o, root, fuel).value.you == Elements(p)
    ensures Orbit(o, root, fuel).value.san == Elements(q)
    ensures Part2(Orbit(o, root, fuel).value) == |p| + |q| - 2 * Shared(p, q)
  {
    var f := Orbit(o, root, fuel).value;
    OrbitRecordsPaths(o, root, fuel);
    RecordedIsWalk(o, root, fuel, p, "YOU");
    RecordedIsWalk(o, root, fuel, q, "SAN");
    WalkDistinct(o, root, p);
    WalkDistinct(o, root, q);
    PartedTails(o, root, p, q);
    TransferCount(p, q, Shared(p, q));
  }

  /** The set recorded for `target` is that of the one walk to the body `target` orbits. */
  lemma RecordedIsWalk(o: Orbits, root: Node, fuel: nat, p: seq<Node>, target: Node)
    requires target == "YOU" || target == "SAN"
    requires SingleCentres(o, root) && Orbit(o, root, fuel).Ok?
    requires Walk(o, root, p) && target in Kids(o, p[|p| - 1])
    ensures RecordOf(Orbit(o, root, fuel).value, target) == Elements(p)
  {
    var f := Orbit(o, root, fuel).value;
    OrbitRecordsPaths(o, root, fuel);
    OrbitRecordsReached(o, root, fuel, p, target);
    assert RecordedPath(o, root, RecordOf(f, target), target);
    var p' :| Walk(o, root, p') && target in Kids(o, p'[|p'| - 1]) && RecordOf(f, target) == Elements(p');
    WalkUnique(o, root, p, p');
  }
}
