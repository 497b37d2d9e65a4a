/**
 * The wave screen (waves.rs), integer parts only: the grid indexing, the
 * neighbour coordinates, and the shape of `draw`, which swaps the two maps
 * and recomputes every cell of the current map from the previous one. Cell
 * values are opaque values of type `V`; the floating-point rule a cell is
 * recomputed by, random draws included, is the parameter `update`, given the
 * cell's index, its previous value and its neighbours' previous values.
 */
module Waves {
  import IndexMath

  /** `(y * width + x) as usize`; the source asserts the three requirements. */
  function XyToIndex(width: int, x: int, y: int): (r: nat)
    requires width > 0 && x >= 0 && y >= 0
    // row `y` occupies the `width` indices from `y * width` on
    ensures x < width ==> y * width <= r < (y + 1) * width
  {
    assert (y + 1) * width == y * width + width;
    y * width + x
  }

  /** The cell `(x, y)` is recovered from its index by division and remainder. */
  lemma IndexRoundTrip(width: int, x: int, y: int)
    requires 0 <= x < width && y >= 0
    ensures XyToIndex(width, x, y) % width == x && XyToIndex(width, x, y) / width == y
  {
    IndexMath.ModUnique(y * width + x, width, y, x);
  }

  /** Every cell of a `width` by `height` grid has an index inside a map of `width * height` values. */
  lemma IndexInBounds(width: int, height: int, x: int, y: int)
    requires 0 <= x < width && 0 <= y < height
    ensures XyToIndex(width, x, y) < width * height
  {
    assert (height - 1 - y) * width >= 0;
  }

  /** Distinct cells have distinct indices. */
  lemma IndexInjective(width: int, x: int, y: int, x': int, y': int)
    requires 0 <= x < width && 0 <= x' < width && y >= 0 && y' >= 0
    requires XyToIndex(width, x, y) == XyToIndex(width, x', y')
    ensures x == x' && y == y'
  {
    IndexRoundTrip(width, x, y);
    IndexRoundTrip(width, x', y');
  }

  /**
   * `((c) % size).abs()` for the coordinate `c = x + u` of a neighbour: the
   * remainder truncates toward zero, so it always lands on the grid.
   */
  function NeighbourCoord(c: int, size: int): (r: nat)
    requires size > 0
    ensures r < size
  {
    IndexMath.Abs(IndexMath.RemT(c, size))
  }

  /**
   * At the right and bottom edges the neighbour wraps round to 0; at the left
   * and top edges it reflects to 1 instead of wrapping to `size - 1`.
   */
  lemma NeighbourEdges(c: int, u: int, size: int)
    requires 0 <= c < size && -1 <= u <= 1
    ensures 0 <= c + u < size ==> NeighbourCoord(c + u, size) == c + u
    ensures c + u == size ==> NeighbourCoord(c + u, size) == 0
    ensures c + u == -1 ==> NeighbourCoord(c + u, size) == (if size > 1 then 1 else 0)
  {
    if 0 <= c + u < size {
      IndexMath.ModUnique(c + u, size, 0, c + u);
    } else if c + u == size {
      IndexMath.ModUnique(size, size, 1, 0);
    } else {
      if size > 1 {
        IndexMath.ModUnique(1, size, 0, 1);
      } else {
        IndexMath.ModUnique(1, size, 1, 0);
      }
    }
  }

  /** A neighbour offset `(u, v)`. */
  type Offset = (int, int)

  /** The order the two nested loops visit the offsets in: `u` outer, `v` inner, each from -1 to 1. */
  const LoopOrder: seq<Offset> :=
    [(-1, -1), (-1, 0), (-1, 1), (0, -1), (0, 0), (0, 1), (1, -1), (1, 0), (1, 1)]

  /**
   * The test that makes the loops `continue`: `u == 0 && u == 0` as the
   * source writes it, or `u == 0 && v == 0`, which skips only the cell itself.
   */
  datatype SkipTest = AsWritten | Intended

  predicate Skips(t: SkipTest, o: Offset)
  {
    match t
    case AsWritten => o.0 == 0 && o.0 == 0
    case Intended => o.0 == 0 && o.1 == 0
  }

  /** The offsets the loops examine, in order, skipping those the test `t` holds of. */
  function Examined(offsets: seq<Offset>, t: SkipTest): (r: seq<Offset>)
    ensures |r| <= |offsets|
    decreases |offsets|
  {
    if |offsets| == 0 then []
    else
      var init, o := offsets[..|offsets| - 1], offsets[|offsets| - 1];
      Examined(init, t) + (if Skips(t, o) then [] else [o])
  }

  /** One more iteration of the loops examines one more offset, unless it is skipped. */
  lemma ExaminedStep(t: SkipTest, k: int)
    requires 0 <= k < |LoopOrder|
    ensures Examined(LoopOrder[..k + 1], t)
         == Examined(LoopOrder[..k], t) + (if Skips(t, LoopOrder[k]) then [] else [LoopOrder[k]])
  {
    assert LoopOrder[..k + 1][..k] == LoopOrder[..k];
  }

  /** The offsets examined as the loops are written: the whole `u == 0` column goes, six remain. */
  lemma AsWrittenSkipsColumn()
    ensures Examined(LoopOrder, AsWritten) == AsWrittenOffsets
    ensures (0, -1) !in Examined(LoopOrder, AsWritten) && (0, 1) !in Examined(LoopOrder, AsWritten)
  {
    AsWrittenFirstTwoRows();
    ExaminedStep(AsWritten, 6);
    ExaminedStep(AsWritten, 7);
    ExaminedStep(AsWritten, 8);
    assert LoopOrder[..9] == LoopOrder;
  }

  lemma AsWrittenFirstTwoRows()
    ensures Examined(LoopOrder[..6], AsWritten) == [(-1, -1), (-1, 0), (-1, 1)]
  {
    assert LoopOrder[..0] == [];
    ExaminedStep(AsWritten, 0);
    ExaminedStep(AsWritten, 1);
    ExaminedStep(AsWritten, 2);
    assert Examined(LoopOrder[..3], AsWritten) == [(-1, -1), (-1, 0), (-1, 1)];
    ExaminedStep(AsWritten, 3);
    ExaminedStep(AsWritten, 4);
    ExaminedStep(AsWritten, 5);
  }

  /** The six offsets the loops examine as written, in the order they visit them. */
  const AsWrittenOffsets: seq<Offset> := [(-1, -1), (-1, 0), (-1, 1), (1, -1), (1, 0), (1, 1)]

  /** The eight neighbours of a cell, in the order the loops visit them. */
  const NeighbourOffsets: seq<Offset> := [(-1, -1), (-1, 0), (-1, 1), (0, -1), (0, 1), (1, -1), (1, 0), (1, 1)]

  /** With the intended test the loops examine exactly the eight neighbours. */
  lemma EightNeighbours()
    ensures Examined(LoopOrder, Intended) == NeighbourOffsets
    ensures forall o: Offset :: o in NeighbourOffsets <==> -1 <= o.0 <= 1 && -1 <= o.1 <= 1 && o != (0, 0)
  {
    IntendedSkipsOnlyCentre();
    forall o: Offset
      ensures o in NeighbourOffsets <==> -1 <= o.0 <= 1 && -1 <= o.1 <= 1 && o != (0, 0)
    {
      if -1 <= o.0 <= 1 && -1 <= o.1 <= 1 && o != (0, 0) {
        OffsetAt(Intended, o.0, o.1);
      }
    }
  }

  /** The loops with the intended test, iteration by iteration. */
  lemma IntendedSkipsOnlyCentre()
    ensures Examined(LoopOrder, Intended) == NeighbourOffsets
  {
    IntendedFirstTwoRows();
    ExaminedStep(Intended, 6);
    ExaminedStep(Intended, 7);
    ExaminedStep(Intended, 8);
    assert LoopOrder[..9] == LoopOrder;
  }

  lemma IntendedFirstTwoRows()
    ensures Examined(LoopOrder[..6], Intended) == [(-1, -1), (-1, 0), (-1, 1), (0, -1), (0, 1)]
  {
    assert LoopOrder[..0] == [];
    ExaminedStep(Intended, 0);
    ExaminedStep(Intended, 1);
    ExaminedStep(Intended, 2);
    assert Examined(LoopOrder[..3], Intended) == [(-1, -1), (-1, 0), (-1, 1)];
    ExaminedStep(Intended, 3);
    ExaminedStep(Intended, 4);
    ExaminedStep(Intended, 5);
  }

  /** The offsets the loops examine under the test `t`, in order. */
  function Offsets(t: SkipTest): seq<Offset>
  {
    match t
    case AsWritten => AsWrittenOffsets
    case Intended => NeighbourOffsets
  }

  /** Under either test, `Offsets` lists exactly what the loops examine. */
  lemma OffsetsExamined(t: SkipTest)
    ensures Examined(LoopOrder, t) == Offsets(t)
  {
    match t
    case AsWritten => AsWrittenSkipsColumn();
    case Intended => IntendedSkipsOnlyCentre();
  }

  /** How many offsets the loops have examined under the test `t` when they reach `(u, v)`. */
  ghost function Rank(t: SkipTest, u: int, v: int): int
  {
    match t
    case AsWritten => if u == 0 then 3 else 3 * (u + 1) + (v + 1) - (if u > 0 then 3 else 0)
    case Intended => 3 * (u + 1) + (v + 1) - (if u > 0 || (u == 0 && v > 0) then 1 else 0)
  }

  /** Where the loops start, where a row of `v` ends and where they stop. */
  lemma RankBounds(t: SkipTest, u: int)
    requires -1 <= u <= 1
    ensures Rank(t, -1, -1) == 0 && Rank(t, u, 2) == Rank(t, u + 1, -1)
    ensures Rank(t, 2, -1) == |Offsets(t)|
  {
  }

  /** The offsets examined so far, one iteration later. */
  lemma ExaminedSoFar(t: SkipTest, u: int, v: int, seen: seq<Offset>)
    requires -1 <= u <= 1 && -1 <= v <= 1 && 0 <= Rank(t, u, v) <= |Offsets(t)|
    requires seen == Offsets(t)[..Rank(t, u, v)]
    ensures 0 <= Rank(t, u, v + 1) <= |Offsets(t)|
    ensures Skips(t, (u, v)) ==> seen == Offsets(t)[..Rank(t, u, v + 1)]
    ensures !Skips(t, (u, v)) ==> seen + [(u, v)] == Offsets(t)[..Rank(t, u, v + 1)]
  {
    OffsetAt(t, u, v);
  }

  /** An offset the test lets through is the next one examined; a skipped one adds nothing. */
  lemma OffsetAt(t: SkipTest, u: int, v: int)
    requires -1 <= u <= 1 && -1 <= v <= 1
    ensures Skips(t, (u, v)) ==> Rank(t, u, v + 1) == Rank(t, u, v)
    ensures !Skips(t, (u, v)) ==>
      && 0 <= Rank(t, u, v) < |Offsets(t)| && Offsets(t)[Rank(t, u, v)] == (u, v)
      && Offsets(t)[..Rank(t, u, v)] + [(u, v)] == Offsets(t)[..Rank(t, u, v + 1)]
  {
  }

  /** The index of the neighbour of `(x, y)` at offset `o`. */
  function NeighbourIndex(width: int, height: int, x: int, y: int, o: Offset): (r: nat)
    requires width > 0 && height > 0
    ensures r < width * height
  {
    var nx, ny := NeighbourCoord(x + o.0, width), NeighbourCoord(y + o.1, height);
    IndexInBounds(width, height, nx, ny);
    XyToIndex(width, nx, ny)
  }

  /** The previous values at the neighbours of `(x, y)` at `offsets`, in order. */
  function Gather<V>(width: int, height: int, last: seq<V>, x: int, y: int, offsets: seq<Offset>): (r: seq<V>)
    requires width > 0 && height > 0 && |last| == width * height
    ensures |r| == |offsets|
    decreases |offsets|
  {
    if |offsets| == 0 then []
    else
      var init, o := offsets[..|offsets| - 1], offsets[|offsets| - 1];
      Gather(width, height, last, x, y, init) + [last[NeighbourIndex(width, height, x, y, o)]]
  }

  /** The previous values at the neighbours of `(x, y)` at `offsets`, as one comprehension. */
  function Neighbours<V>(width: int, height: int, last: seq<V>, x: int, y: int, offsets: seq<Offset>): (r: seq<V>)
    requires width > 0 && height > 0 && |last| == width * height
    ensures |r| == |offsets|
  {
    seq(|offsets|, k requires 0 <= k < |offsets| => last[NeighbourIndex(width, height, x, y, offsets[k])])
  }

  /**
   * The new value of cell `i` of a `width` by `height` grid, when the loops
   * over the neighbours skip with the test `t`.
   */
  function Cell<V>(t: SkipTest, width: int, height: int, last: seq<V>, update: (nat, V, seq<V>) -> V, i: nat): (r: V)
    requires width > 0 && height > 0 && |last| == width * height && i < |last|
    // the rule sees the cell's own previous value and, in order, the previous
    // values of its neighbours at the offsets `Offsets(t)` lists
    ensures r == update(i, last[i], Neighbours(width, height, last, i % width, i / width, Offsets(t)))
  {
    var x, y := i % width, i / width;
    var vs := Gather(width, height, last, x, y, Examined(LoopOrder, t));
    OffsetsExamined(t);
    GatherAll(width, height, last, x, y, Offsets(t));
    update(i, last[i], vs)
  }

  class WaveScreen<V> {
    const width: int
    const height: int
    var currentMap: array<V>
    var lastMap: array<V>

    ghost predicate Valid()
      reads this
    {
      && width > 0 && height > 0
      && currentMap != lastMap
      && currentMap.Length == width * height && lastMap.Length == width * height
    }

    /** The current map starts as noise, the previous one as `zero` everywhere. */
    constructor (width: int, height: int, noise: nat -> V, zero: V)
      requires width > 0 && height > 0
      ensures Valid() && this.width == width && this.height == height
      ensures fresh(currentMap) && fresh(lastMap)
      ensures forall i :: 0 <= i < currentMap.Length ==> currentMap[i] == noise(i) && lastMap[i] == zero
    {
      this.width, this.height := width, height;
      currentMap := new V[width * height](i => noise(i));
      lastMap := new V[width * height](_ => zero);
    }

    /** Fresh noise in the current map, of the same length. */
    method Reset(noise: nat -> V)
      requires Valid()
      modifies this
      ensures Valid() && fresh(currentMap) && lastMap == old(lastMap)
      ensures currentMap.Length == old(currentMap.Length)
      ensures forall i :: 0 <= i < currentMap.Length ==> currentMap[i] == noise(i)
    {
      currentMap := new V[currentMap.Length](i => noise(i));
    }

    /** A click starts the waves over from noise. */
    method Click(noise: nat -> V)
      requires Valid()
      modifies this
      ensures Valid() && fresh(currentMap) && lastMap == old(lastMap)
      ensures currentMap.Length == old(currentMap.Length)
      ensures forall i :: 0 <= i < currentMap.Length ==> currentMap[i] == noise(i)
    {
      Reset(noise);
    }

    /**
     * The previous values of the neighbours of `(x, y)` the two nested loops
     * over `u` and `v` read, skipping the offsets the test `t` holds of.
     */
    method NeighbourValues(t: SkipTest, x: int, y: int) returns (values: seq<V>)
      requires Valid() && 0 <= x < width && 0 <= y < height
      ensures values == Gather(width, height, lastMap[..], x, y, Examined(LoopOrder, t))
    {
      values := [];
      ghost var last := lastMap[..];
      ghost var seen: seq<Offset> := [];  // offsets examined so far
      ghost var n := 0;  // how many
      RankBounds(t, -1);
      var u := -1;
      while u <= 1
        invariant -1 <= u <= 2 && n == Rank(t, u, -1) && 0 <= n <= |Offsets(t)|
        invariant seen == Offsets(t)[..n]
        invariant values == Gather(width, height, last, x, y, seen)
      {
        var v := -1;
        while v <= 1
          invariant -1 <= v <= 2 && n == Rank(t, u, v) && 0 <= n <= |Offsets(t)|
          invariant seen == Offsets(t)[..n]
          invariant values == Gather(width, height, last, x, y, seen)
        {
          ExaminedSoFar(t, u, v, seen);
          if !Skips(t, (u, v)) {
            var ni := NeighbourIndex(width, height, x, y, (u, v));
            values := values + [lastMap[ni]];
            GatherSnoc(width, height, last, x, y, seen, (u, v));
            seen := seen + [(u, v)];
          }
          n := Rank(t, u, v + 1);
          v := v + 1;
        }
        RankBounds(t, u);
        u := u + 1;
      }
      assert seen == Offsets(t);
      OffsetsExamined(t);
    }

    /**
     * One frame: swap the maps, then give every cell of the current map the
     * value `update` computes from the previous map.
     */
    method Draw(t: SkipTest, update: (nat, V, seq<V>) -> V)
      requires Valid()
      modifies this, currentMap, lastMap
      ensures Valid()
      ensures currentMap == old(lastMap) && lastMap == old(currentMap)
      ensures lastMap[..] == old(currentMap[..])
      ensures forall i :: 0 <= i < currentMap.Length ==> currentMap[i] == Cell(t, width, height, lastMap[..], update, i)
    {
      currentMap, lastMap := lastMap, currentMap;
      ghost var last := lastMap[..];
      ghost var i := 0;  // cells recomputed so far
      var y := 0;
      while y < height
        invariant Valid() && currentMap == old(lastMap) && lastMap == old(currentMap)
        invariant lastMap[..] == last && 0 <= y <= height && i == y * width && i <= width * height
        invariant forall j :: 0 <= j < i ==> currentMap[j] == Cell(t, width, height, last, update, j)
      {
        var x := 0;
        while x < width
          invariant Valid() && currentMap == old(lastMap) && lastMap == old(currentMap)
          invariant lastMap[..] == last && 0 <= x <= width && i == y * width + x && i <= width * height
          invariant forall j :: 0 <= j < i ==> currentMap[j] == Cell(t, width, height, last, update, j)
        {
          IndexInBounds(width, height, x, y);
          UpdateCell(t, x, y, update);
          x := x + 1;
          i := i + 1;
        }
        assert i == (y + 1) * width;
        y := y + 1;
      }
      assert i == currentMap.Length;
    }

    /** The body of the inner loop of `draw`: recompute the cell `(x, y)` from the previous map. */
    method UpdateCell(t: SkipTest, x: int, y: int, update: (nat, V, seq<V>) -> V)
      requires Valid() && 0 <= x < width && 0 <= y < height
      modifies currentMap
      ensures XyToIndex(width, x, y) < currentMap.Length
      ensures currentMap[XyToIndex(width, x, y)] == Cell(t, width, height, lastMap[..], update, XyToIndex(width, x, y))
      ensures forall j :: 0 <= j < currentMap.Length && j != XyToIndex(width, x, y) ==> currentMap[j] == old(currentMap[j])
    {
      IndexInBounds(width, height, x, y);
      var i := XyToIndex(width, x, y);
      var lastValue := lastMap[i];
      var neighbours := NeighbourValues(t, x, y);
      CellAt(t, width, height, lastMap[..], update, x, y);
      currentMap[i] := update(i, lastValue, neighbours);
    }
  }

  /** The cell at `(x, y)` is recomputed from its own previous value and its neighbours'. */
  lemma CellAt<V>(t: SkipTest, width: int, height: int, last: seq<V>, update: (nat, V, seq<V>) -> V, x: int, y: int)
    requires 0 <= x < width && 0 <= y < height && |last| == width * height
    ensures XyToIndex(width, x, y) < |last|
    ensures var i := XyToIndex(width, x, y);
      Cell(t, width, height, last, update, i)
      == update(i, last[i], Gather(width, height, last, x, y, Examined(LoopOrder, t)))
  {
    IndexInBounds(width, height, x, y);
    IndexRoundTrip(width, x, y);
  }

  /**
   * On a 3 by 3 grid the centre cell, as the loops are written, is given the
   * six cells of the left and right columns and never the cells directly above
   * (index 1) and below (index 7) it.
   */
  lemma CentreAsWritten<V>(last: seq<V>)
    requires |last| == 9
    ensures Gather(3, 3, last, 1, 1, Examined(LoopOrder, AsWritten))
         == [last[0], last[3], last[6], last[2], last[5], last[8]]
  {
    OffsetsExamined(AsWritten);
    var cells := [0, 3, 6, 2, 5, 8];
    var g := Gather(3, 3, last, 1, 1, AsWrittenOffsets);
    forall k | 0 <= k < 6
      ensures g[k] == last[cells[k]]
    {
      GatherAt(3, 3, last, 1, 1, AsWrittenOffsets, k);
      CentreNeighbour(AsWrittenOffsets[k]);
    }
  }

  /** With the intended test the centre of a 3 by 3 grid is given all eight other cells. */
  lemma CentreIntended<V>(last: seq<V>)
    requires |last| == 9
    ensures Gather(3, 3, last, 1, 1, Examined(LoopOrder, Intended))
         == [last[0], last[3], last[6], last[1], last[7], last[2], last[5], last[8]]
  {
    OffsetsExamined(Intended);
    var cells := [0, 3, 6, 1, 7, 2, 5, 8];
    var g := Gather(3, 3, last, 1, 1, NeighbourOffsets);
    forall k | 0 <= k < 8
      ensures g[k] == last[cells[k]]
    {
      GatherAt(3, 3, last, 1, 1, NeighbourOffsets, k);
      CentreNeighbour(NeighbourOffsets[k]);
    }
  }

  /** The neighbour of the centre of a 3 by 3 grid at offset `o` is the cell at `o` from it. */
  lemma CentreNeighbour(o: Offset)
    requires -1 <= o.0 <= 1 && -1 <= o.1 <= 1
    ensures NeighbourIndex(3, 3, 1, 1, o) == (1 + o.1) * 3 + (1 + o.0)
  {
    NeighbourEdges(1, o.0, 3);
    NeighbourEdges(1, o.1, 3);
    var nx, ny := NeighbourCoord(1 + o.0, 3), NeighbourCoord(1 + o.1, 3);
    assert nx == 1 + o.0 && ny == 1 + o.1;
    assert NeighbourIndex(3, 3, 1, 1, o) == XyToIndex(3, nx, ny) == ny * 3 + nx;
  }

  /** The `k`-th gathered value is the previous value of the `k`-th offset's neighbour. */
  lemma {:induction false} GatherAt<V>(width: int, height: int, last: seq<V>, x: int, y: int, offsets: seq<Offset>, k: nat)
    requires width > 0 && height > 0 && |last| == width * height && k < |offsets|
    ensures Gather(width, height, last, x, y, offsets)[k] == last[NeighbourIndex(width, height, x, y, offsets[k])]
    decreases |offsets|
  {
    if k < |offsets| - 1 {
      GatherAt(width, height, last, x, y, offsets[..|offsets| - 1], k);
    }
  }

  /** The gathered values are the previous values of the offsets' neighbours, in order. */
  lemma GatherAll<V>(width: int, height: int, last: seq<V>, x: int, y: int, offsets: seq<Offset>)
    requires width > 0 && height > 0 && |last| == width * height
    ensures Gather(width, height, last, x, y, offsets) == Neighbours(width, height, last, x, y, offsets)
  {
    forall k | 0 <= k < |offsets|
      ensures Gather(width, height, last, x, y, offsets)[k] == last[NeighbourIndex(width, height, x, y, offsets[k])]
    {
      GatherAt(width, height, last, x, y, offsets, k);
    }
  }

  /** Gathering one more offset appends that neighbour's value. */
  lemma GatherSnoc<V>(width: int, height: int, last: seq<V>, x: int, y: int, offsets: seq<Offset>, o: Offset)
    requires width > 0 && height > 0 && |last| == width * height
    ensures Gather(width, height, last, x, y, offsets + [o])
         == Gather(width, height, last, x, y, offsets) + [last[NeighbourIndex(width, height, x, y, o)]]
  {
    assert (offsets + [o])[..|offsets|] == offsets;
  }
}
