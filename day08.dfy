/** The space image format: a stream of digits cut into layers of 25 by 6
    pixels; a checksum over the layer with the fewest zeros; and the
    picture seen through the stacked layers, where 0 and 1 are opaque and
    every other digit lets the layer below show. */
module Day08 {
  import opened Wrappers

  const Width: nat := 25
  const Height: nat := 6
  const LayerSize: nat := Width * Height

  function Min(a: int, b: int): int { if a <= b then a else b }

  // ---------------------------------------------------------------------
  // Layers
  // ---------------------------------------------------------------------

  /** `chunks(LAYER_SIZE)`: consecutive slices of 150 digits, the last one
      shorter when the length is not a multiple of 150; none for no input. */
  function Layers(input: seq<int>): (ls: seq<seq<int>>)
    ensures forall k :: 0 <= k < |ls| ==> 0 < |ls[k]| <= LayerSize
    decreases |input|
  {
    if input == [] then []
    else if |input| <= LayerSize then [input]
    else [input[..LayerSize]] + Layers(input[LayerSize..])
  }

  function Flatten(ls: seq<seq<int>>): seq<int>
  {
    if ls == [] then [] else ls[0] + Flatten(ls[1..])
  }

  /** Layer `k` is the slice from `150 * k` to the next multiple of 150 or the end. */
  lemma {:induction false} LayersSlice(input: seq<int>)
    ensures |Layers(input)| == (|input| + LayerSize - 1) / LayerSize
    ensures forall k :: 0 <= k < |Layers(input)| ==>
      Layers(input)[k] == input[LayerSize * k .. Min(LayerSize * (k + 1), |input|)]
    decreases |input|
  {
    if |input| > LayerSize {
      var rest := input[LayerSize..];
      LayersSlice(rest);
      var ls := Layers(input);
      forall k | 1 <= k < |ls|
        ensures ls[k] == input[LayerSize * k .. Min(LayerSize * (k + 1), |input|)]
      {
        assert ls[k] == Layers(rest)[k - 1];
        assert rest[LayerSize * (k - 1) .. Min(LayerSize * k, |rest|)]
            == input[LayerSize * k .. Min(LayerSize * (k + 1), |input|)];
      }
    }
  }

  /** Putting the layers back end to end gives the input again. */
  lemma {:induction false} LayersFlatten(input: seq<int>)
    ensures Flatten(Layers(input)) == input
    decreases |input|
  {
    if |input| > LayerSize {
      LayersFlatten(input[LayerSize..]);
      assert Layers(input)[1..] == Layers(input[LayerSize..]);
      assert input[..LayerSize] + input[LayerSize..] == input;
    } else if input != [] {
      assert Layers(input)[1..] == [];
    }
  }

  // ---------------------------------------------------------------------
  // Part 1
  // ---------------------------------------------------------------------

  /** How many pixels of `l` hold the digit `v`. */
  function Occurrences(l: seq<int>, v: int): nat
  {
    if l == [] then 0 else (if l[0] == v then 1 else 0) + Occurrences(l[1..], v)
  }

  /** `min_by_key` on the number of zeros: the first layer that has the fewest. */
  function FewestZeros(ls: seq<seq<int>>): (i: nat)
    requires ls != []
    ensures i < |ls|
    ensures forall k :: 0 <= k < |ls| ==> Occurrences(ls[i], 0) <= Occurrences(ls[k], 0)
    ensures forall k :: 0 <= k < i ==> Occurrences(ls[i], 0) < Occurrences(ls[k], 0)
  {
    if |ls| == 1 then 0
    else
      var j := 1 + FewestZeros(ls[1..]);
      assert forall k :: 1 <= k < |ls| ==> ls[k] == ls[1..][k - 1];
      if Occurrences(ls[j], 0) < Occurrences(ls[0], 0) then j else 0
  }

  /** The fold over a layer that counts ones and twos. */
  function Tally(l: seq<int>, acc: (nat, nat)): (nat, nat)
  {
    if l == [] then acc
    else
      var next := match l[0]
        case 1 => (acc.0 + 1, acc.1)
        case 2 => (acc.0, acc.1 + 1)
        case _ => acc;
      Tally(l[1..], next)
  }

  /** The fold adds the layer's ones and twos to its start value. */
  lemma {:induction false} TallyCounts(l: seq<int>, acc: (nat, nat))
    ensures Tally(l, acc) == (acc.0 + Occurrences(l, 1), acc.1 + Occurrences(l, 2))
  {
    if l != [] {
      var next := match l[0]
        case 1 => (acc.0 + 1, acc.1)
        case 2 => (acc.0, acc.1 + 1)
        case _ => acc;
      TallyCounts(l[1..], next);
    }
  }

  /** `unwrap` of the minimum over no layers. */
  datatype NoLayers = NoLayers

  /** Part 1: ones times twos in the layer with the fewest zeros. */
  function Part1(input: seq<int>): Result<nat, NoLayers>
  {
    var ls := Layers(input);
    if ls == [] then Err(NoLayers)
    else
      var (ones, twos) := Tally(ls[FewestZeros(ls)], (0, 0));
      Ok(ones * twos)
  }

  /** Part 1 panics only on an empty image; otherwise it is the ones-times-twos
      checksum of a layer that no layer beats on zeros and no earlier layer ties. */
  lemma Part1Checksum(input: seq<int>)
    ensures Part1(input).Err? <==> input == []
    ensures Part1(input).Ok? ==> exists i ::
      && 0 <= i < |Layers(input)|
      && (forall k :: 0 <= k < |Layers(input)| ==> Occurrences(Layers(input)[i], 0) <= Occurrences(Layers(input)[k], 0))
      && (forall k :: 0 <= k < i ==> Occurrences(Layers(input)[i], 0) < Occurrences(Layers(input)[k], 0))
      && Part1(input).value == Occurrences(Layers(input)[i], 1) * Occurrences(Layers(input)[i], 2)
  {
    var ls := Layers(input);
    if ls != [] {
      var i := FewestZeros(ls);
      TallyCounts(ls[i], (0, 0));
    }
  }

  // ---------------------------------------------------------------------
  // Part 2
  // ---------------------------------------------------------------------

  /** Why a pixel has no colour: a layer too short to hold it (the index
      panics), or every layer transparent there (`find` returns nothing). */
  datatype PixelFault = OutsideLayer(i: nat) | Transparent(i: nat)

  predicate Opaque(v: int) { v == 0 || v == 1 }

  /** Every layer above layer `j` holds pixel `i` and is transparent there. */
  predicate SeenThrough(ls: seq<seq<int>>, i: nat, j: nat)
    requires j <= |ls|
  {
    forall k :: 0 <= k < j ==> i < |ls[k]| && !Opaque(ls[k][i])
  }

  /** Pixel `i`: the first layer value that is 0 or 1, looking down from the top. */
  function Pixel(ls: seq<seq<int>>, i: nat): (r: Result<int, PixelFault>)
    ensures r.Ok? ==>
      Opaque(r.value) && exists j :: 0 <= j < |ls| && i < |ls[j]| && ls[j][i] == r.value && SeenThrough(ls, i, j)
    ensures r.Err? && r.error.Transparent? ==> r.error.i == i && SeenThrough(ls, i, |ls|)
    ensures r.Err? && r.error.OutsideLayer? ==>
      r.error.i == i && exists j :: 0 <= j < |ls| && i >= |ls[j]| && SeenThrough(ls, i, j)
  {
    if ls == [] then Err(Transparent(i))
    else if i >= |ls[0]| then Err(OutsideLayer(i))
    else if Opaque(ls[0][i]) then Ok(ls[0][i])
    else
      var r := Pixel(ls[1..], i);
      assert forall k :: 1 <= k < |ls| ==> ls[k] == ls[1..][k - 1];
      if r.Ok? then
        ghost var j :| 0 <= j < |ls[1..]| && i < |ls[1..][j]| && ls[1..][j][i] == r.value && SeenThrough(ls[1..], i, j);
        assert ls[j + 1][i] == r.value && SeenThrough(ls, i, j + 1);
        r
      else if r.error.OutsideLayer? then
        ghost var j :| 0 <= j < |ls[1..]| && i >= |ls[1..][j]| && SeenThrough(ls[1..], i, j);
        assert i >= |ls[j + 1]| && SeenThrough(ls, i, j + 1);
        r
      else r
  }

  /** The first `n` pixels, in order; the first pixel without a colour panics. */
  function Screen(ls: seq<seq<int>>, n: nat): (r: Result<seq<int>, PixelFault>)
    ensures r.Ok? ==> |r.value| == n && forall i :: 0 <= i < n ==> Pixel(ls, i) == Ok(r.value[i])
    ensures r.Err? ==> r.error.i < n && Pixel(ls, r.error.i) == Err(r.error)
    ensures r.Err? ==> forall i :: 0 <= i < r.error.i ==> Pixel(ls, i).Ok?
  {
    if n == 0 then Ok([])
    else
      var s :- Screen(ls, n - 1);
      var p :- Pixel(ls, n - 1);
      Ok(s + [p])
  }

  /** Part 2: the composite of the image's layers, 150 pixels. */
  function Part2(input: seq<int>): Result<seq<int>, PixelFault>
  {
    Screen(Layers(input), LayerSize)
  }

  /** An image of whole layers has only full layers. */
  lemma {:induction false} WholeLayers(input: seq<int>)
    requires |input| % LayerSize == 0
    ensures forall k :: 0 <= k < |Layers(input)| ==> |Layers(input)[k]| == LayerSize
    decreases |input|
  {
    if |input| > LayerSize {
      var rest := input[LayerSize..];
      assert |rest| % LayerSize == 0;
      WholeLayers(rest);
      assert forall k :: 1 <= k < |Layers(input)| ==> Layers(input)[k] == Layers(rest)[k - 1];
    }
  }

  /** When the image is whole layers, no pixel reads past a layer: the
      composite fails only where every layer is transparent, and otherwise
      has all 150 pixels, each 0 or 1. */
  lemma Part2Whole(input: seq<int>)
    requires |input| % LayerSize == 0
    ensures Part2(input).Err? ==> Part2(input).error.Transparent?
    ensures Part2(input).Ok? ==> |Part2(input).value| == LayerSize
    ensures Part2(input).Ok? ==> forall i :: 0 <= i < LayerSize ==> Opaque(Part2(input).value[i])
  {
    var ls := Layers(input);
    WholeLayers(input);
    var r := Part2(input);
    if r.Ok? {
      forall i | 0 <= i < LayerSize
        ensures Opaque(r.value[i])
      {
        assert Pixel(ls, i) == Ok(r.value[i]);
      }
    }
  }
}
