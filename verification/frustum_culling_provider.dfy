/**
 * The visibility provider: the six faces' in-plane axes, an optional table of
 * precomputed tile bounds over the `6·T·T` grid, and the query that yields the
 * keys of the tiles whose bounds pass the camera's frustum test. The frustum
 * test is an input predicate over bounds; bounds are kept symbolically, as
 * the cube point a tile's centre is projected from, the sphere radius and the
 * half extent, in exact real arithmetic.
 */
module Culling {
  import opened Wrappers
  import opened Seqs
  import opened TileKeys
  import opened FaceAxes
  import opened HeightData

  /** A point with real coordinates. */
  datatype RVec = RVec(x: real, y: real, z: real)

  function ToReal(v: Vec3): RVec {
    RVec(v.x as real, v.y as real, v.z as real)
  }

  function Scale(v: Vec3, s: real): RVec {
    RVec(v.x as real * s, v.y as real * s, v.z as real * s)
  }

  function Plus(a: RVec, b: RVec): RVec {
    RVec(a.x + b.x, a.y + b.y, a.z + b.z)
  }

  /**
   * The axis-aligned box of a tile: centred on `cubePoint` normalised and
   * scaled by `radius` (the normalisation is not modelled), `2·halfRange`
   * wide on every axis.
   */
  datatype TileBounds = TileBounds(cubePoint: RVec, radius: real, halfRange: real)

  /** The camera's frustum test (`TestPlanesAABB` against the camera's planes). */
  type Frustum = TileBounds -> bool

  /** A face index, `0..5`. */
  type FaceIndex = f: int | 0 <= f < 6

  /** Grid cell `(x, y)` of a face, as the loops enumerate it, before the key's narrowing casts. */
  datatype Cell = Cell(face: FaceIndex, x: int, y: int)

  /** The key the loops build for a cell: `new TileKey((byte)face, (ushort)x, (ushort)y)`. */
  function KeyOf(c: Cell): TileKey {
    MakeKey(c.face, c.x, c.y)
  }

  /** Whether `k` names a tile of the `6·T·T` grid. */
  predicate InGrid(k: TileKey, tiles: int) {
    k.face as int < 6 && (k.x as int) < tiles && (k.y as int) < tiles
  }

  /** The half extent of every tile's box. */
  function HalfRange(radius: real, heightMap: Option<Texture>, heightScale: real, uniformScale: real, tiles: int): real
    requires tiles >= 1
  {
    var maxElev := (if heightMap.Some? then heightScale * uniformScale else 0.0) * 0.5;
    var invTiles := 1.0 / tiles as real;
    radius * (invTiles * 1.5) + maxElev
  }

  /** The half extent is `R·1.5/T`, plus half the scaled height range when there is a height map. */
  lemma HalfRangeIs(radius: real, heightMap: Option<Texture>, heightScale: real, uniformScale: real, tiles: int)
    requires tiles >= 1
    ensures HalfRange(radius, heightMap, heightScale, uniformScale, tiles) ==
              radius * 1.5 / tiles as real + (if heightMap.Some? then 0.5 * heightScale * uniformScale else 0.0)
  {
    var t := tiles as real;
    assert radius * ((1.0 / t) * 1.5) == radius * 1.5 / t;
  }

  /** Cell index `i` mapped to its centre in `[-1, 1]`: `2·(i + 0.5)/T − 1`. */
  function Signed(i: int, tiles: int): real
    requires tiles >= 1
  {
    var f := (i as real + 0.5) * (1.0 / tiles as real);
    f + f - 1.0
  }

  /** Everything the bounds of a cell depend on: the axis tables, `T`, the radius and the half extent. */
  datatype Layout = Layout(axesA: seq<Vec3>, axesB: seq<Vec3>, tiles: int, radius: real, halfRange: real)

  predicate WellFormed(l: Layout) {
    |l.axesA| == 6 && |l.axesB| == 6 && l.tiles >= 1
  }

  /** The box of a cell: its cube point `a·sx + b·sy + up`, the radius and the half extent. */
  function BoundsOf(l: Layout, c: Cell): TileBounds
    requires WellFormed(l)
  {
    var p := Plus(Plus(Scale(l.axesA[c.face], Signed(c.x, l.tiles)), Scale(l.axesB[c.face], Signed(c.y, l.tiles))), ToReal(FaceUp[c.face]));
    TileBounds(p, l.radius, l.halfRange)
  }

  /** The cells `0..k-1` of row `y` of a face. */
  function RowCells(face: FaceIndex, y: int, k: nat): (r: seq<Cell>)
    ensures |r| == k
  {
    if k == 0 then [] else RowCells(face, y, k - 1) + [Cell(face, k - 1, y)]
  }

  /** The rows `0..k-1` of a face, `tiles` cells each. */
  function FaceCells(face: FaceIndex, tiles: nat, k: nat): seq<Cell> {
    if k == 0 then [] else FaceCells(face, tiles, k - 1) + RowCells(face, k - 1, tiles)
  }

  /** The faces `0..k-1`, in the loops' order: face, then row, then column. */
  function GridCells(tiles: nat, k: nat): seq<Cell>
    requires k <= 6
  {
    if k == 0 then [] else GridCells(tiles, k - 1) + FaceCells(k - 1, tiles, tiles)
  }

  function Grid(tiles: nat): seq<Cell> {
    GridCells(tiles, 6)
  }

  /** The keys of `cells`, in order. */
  function Keys(cells: seq<Cell>): (r: seq<TileKey>)
    ensures |r| == |cells|
    ensures forall i :: 0 <= i < |cells| ==> r[i] == KeyOf(cells[i])
  {
    if cells == [] then [] else Keys(cells[..|cells| - 1]) + [KeyOf(cells[|cells| - 1])]
  }

  /** The on-the-fly path: the keys of the cells whose box passes, in enumeration order. */
  function OnTheFly(l: Layout, cells: seq<Cell>, inFrustum: Frustum): (r: seq<TileKey>)
    requires WellFormed(l)
    ensures forall k :: k in r ==> k in Keys(cells)
  {
    if cells == [] then []
    else
      var c := cells[|cells| - 1];
      OnTheFly(l, cells[..|cells| - 1], inFrustum) + (if inFrustum(BoundsOf(l, c)) then [KeyOf(c)] else [])
  }

  /** The table `RebuildPrecompute` fills: every cell's box under its key, a later cell overwriting an earlier one. */
  function TableOf(l: Layout, cells: seq<Cell>): map<TileKey, TileBounds>
    requires WellFormed(l)
  {
    if cells == [] then map[]
    else
      var c := cells[|cells| - 1];
      TableOf(l, cells[..|cells| - 1])[KeyOf(c) := BoundsOf(l, c)]
  }

  /**
   * The table's enumeration order: keys in order of first insertion, which is
   * the order a dictionary enumerates when nothing was removed from it.
   */
  function OrderOf(cells: seq<Cell>): seq<TileKey> {
    if cells == [] then []
    else
      Insert(OrderOf(cells[..|cells| - 1]), KeyOf(cells[|cells| - 1]))
  }

  /** The precomputed path: the table's keys in enumeration order whose stored box passes. */
  function FromTable(order: seq<TileKey>, table: map<TileKey, TileBounds>, inFrustum: Frustum): (r: seq<TileKey>)
    requires forall k :: k in order ==> k in table
    ensures forall k :: k in r ==> k in order
  {
    if order == [] then []
    else
      var k := order[|order| - 1];
      FromTable(order[..|order| - 1], table, inFrustum) + (if inFrustum(table[k]) then [k] else [])
  }

  lemma {:induction false} NoDupSnoc<T>(s: seq<T>, x: T)
    requires NoDup(s + [x])
    ensures NoDup(s) && x !in s
  {
    NoDupPrefix(s + [x], |s|);
    assert (s + [x])[..|s|] == s;
    NoDupAt(s + [x], |s|);
  }

  lemma {:induction false} RowCellsHas(face: FaceIndex, y: int, k: nat, c: Cell)
    ensures c in RowCells(face, y, k) <==> c.face == face && c.y == y && 0 <= c.x < k
  {
    if k > 0 {
      RowCellsHas(face, y, k - 1, c);
    }
  }

  lemma {:induction false} FaceCellsHas(face: FaceIndex, tiles: nat, k: nat, c: Cell)
    ensures c in FaceCells(face, tiles, k) <==> c.face == face && 0 <= c.y < k && 0 <= c.x < tiles
  {
    if k > 0 {
      FaceCellsHas(face, tiles, k - 1, c);
      RowCellsHas(face, k - 1, tiles, c);
    }
  }

  lemma {:induction false} GridCellsHas(tiles: nat, k: nat, c: Cell)
    requires k <= 6
    ensures c in GridCells(tiles, k) <==> c.face < k && 0 <= c.y < tiles && 0 <= c.x < tiles
  {
    if k > 0 {
      GridCellsHas(tiles, k - 1, c);
      FaceCellsHas(k - 1, tiles, tiles, c);
    }
  }

  /** The grid holds exactly the cells `(f, x, y)` with `f < 6` and `x, y < T`. */
  lemma GridMember(tiles: nat)
    ensures forall c :: c in Grid(tiles) <==> 0 <= c.y < tiles && 0 <= c.x < tiles
  {
    forall c: Cell
      ensures c in Grid(tiles) <==> 0 <= c.y < tiles && 0 <= c.x < tiles
    {
      GridCellsHas(tiles, 6, c);
    }
  }

  lemma {:induction false} RowCellsNoDup(face: FaceIndex, y: int, k: nat)
    ensures NoDup(RowCells(face, y, k))
  {
    if k > 0 {
      RowCellsNoDup(face, y, k - 1);
      RowCellsHas(face, y, k - 1, Cell(face, k - 1, y));
      NoDupConcat(RowCells(face, y, k - 1), [Cell(face, k - 1, y)]);
    }
  }

  /** A cell of rows `0..y-1` is not in row `y`. */
  lemma RowsBefore(face: FaceIndex, tiles: nat, y: nat, c: Cell)
    requires c in FaceCells(face, tiles, y)
    ensures c !in RowCells(face, y, tiles)
  {
    FaceCellsHas(face, tiles, y, c);
    RowCellsHas(face, y, tiles, c);
  }

  lemma {:induction false} FaceCellsNoDup(face: FaceIndex, tiles: nat, k: nat)
    ensures NoDup(FaceCells(face, tiles, k))
  {
    if k > 0 {
      FaceCellsNoDup(face, tiles, k - 1);
      RowCellsNoDup(face, k - 1, tiles);
      var a, b := FaceCells(face, tiles, k - 1), RowCells(face, k - 1, tiles);
      forall c | c in a
        ensures c !in b
      {
        RowsBefore(face, tiles, k - 1, c);
      }
      NoDupConcat(a, b);
    }
  }

  /** A cell of faces `0..f-1` is not on face `f`. */
  lemma FacesBefore(tiles: nat, f: FaceIndex, c: Cell)
    requires c in GridCells(tiles, f)
    ensures c !in FaceCells(f, tiles, tiles)
  {
    GridCellsHas(tiles, f, c);
    FaceCellsHas(f, tiles, tiles, c);
  }

  lemma {:induction false} GridCellsNoDup(tiles: nat, k: nat)
    requires k <= 6
    ensures NoDup(GridCells(tiles, k))
  {
    if k > 0 {
      GridCellsNoDup(tiles, k - 1);
      FaceCellsNoDup(k - 1, tiles, tiles);
      var a, b := GridCells(tiles, k - 1), FaceCells(k - 1, tiles, tiles);
      forall c | c in a
        ensures c !in b
      {
        FacesBefore(tiles, k - 1, c);
      }
      NoDupConcat(a, b);
    }
  }

  /** Whether a cell's coordinates survive the narrowing casts unchanged. */
  predicate InKeyRange(c: Cell) {
    0 <= c.x < 0x1_0000 && 0 <= c.y < 0x1_0000
  }

  lemma KeyOfInjective(c: Cell, d: Cell)
    requires InKeyRange(c) && InKeyRange(d) && c != d
    ensures KeyOf(c) != KeyOf(d)
  {
  }

  /** Distinct cells whose coordinates fit the key's fields have distinct keys. */
  lemma {:induction false} KeysNoDup(cells: seq<Cell>)
    requires NoDup(cells) && forall c :: c in cells ==> InKeyRange(c)
    ensures NoDup(Keys(cells))
  {
    if cells != [] {
      var init, last := cells[..|cells| - 1], cells[|cells| - 1];
      assert cells == init + [last];
      NoDupSnoc(init, last);
      KeysNoDup(init);
      var ks := Keys(init);
      forall i | 0 <= i < |ks|
        ensures ks[i] != KeyOf(last)
      {
        assert init[i] in cells;
        KeyOfInjective(init[i], last);
      }
      NoDupConcat(ks, [KeyOf(last)]);
    }
  }

  /** For `T <= 65536` no two grid cells share a key. */
  lemma GridKeysNoDup(tiles: nat)
    requires tiles <= 0x1_0000
    ensures NoDup(Keys(Grid(tiles)))
  {
    GridCellsNoDup(tiles, 6);
    GridMember(tiles);
    KeysNoDup(Grid(tiles));
  }

  /** Narrowing a non-negative coordinate never enlarges it. */
  lemma KeyOfBelow(c: Cell)
    requires c.x >= 0 && c.y >= 0
    ensures KeyOf(c).face as int == c.face && KeyOf(c).x as int <= c.x && KeyOf(c).y as int <= c.y
  {
  }

  /** The narrowing casts never enlarge a coordinate: the key of a grid cell is in the grid, for every `T`. */
  lemma KeysOfGridInGrid(tiles: nat)
    ensures forall key :: key in Keys(Grid(tiles)) <==> InGrid(key, tiles)
  {
    var g := Grid(tiles);
    GridMember(tiles);
    forall key: TileKey | key in Keys(g)
      ensures InGrid(key, tiles)
    {
      var i :| 0 <= i < |g| && Keys(g)[i] == key;
      var c := g[i];
      assert c in g;
      KeyOfBelow(c);
    }
    forall key: TileKey | InGrid(key, tiles)
      ensures key in Keys(g)
    {
      var c := Cell(key.face as int, key.x as int, key.y as int);
      assert c in g;
      var i :| 0 <= i < |g| && g[i] == c;
      assert Keys(g)[i] == key;
    }
  }

  lemma {:induction false} TableKeys(l: Layout, cells: seq<Cell>)
    requires WellFormed(l)
    ensures TableOf(l, cells).Keys == Elems(OrderOf(cells)) == Elems(Keys(cells))
    ensures NoDup(OrderOf(cells))
  {
    if cells != [] {
      TableKeys(l, cells[..|cells| - 1]);
      KeysSnoc(cells);
    }
  }

  lemma KeysSnoc(cells: seq<Cell>)
    requires cells != []
    ensures Elems(Keys(cells)) == Elems(Keys(cells[..|cells| - 1])) + {KeyOf(cells[|cells| - 1])}
  {
    var ks, k := Keys(cells[..|cells| - 1]), KeyOf(cells[|cells| - 1]);
    assert Keys(cells) == ks + [k];
    assert forall x :: x in ks + [k] <==> x in ks || x == k;
  }

  /** Inserting cell `(face, x, y)` overwrites its key's box and appends the key when it is new. */
  lemma InsertStep(l: Layout, before: seq<Cell>, face: FaceIndex, y: int, x: nat)
    requires WellFormed(l)
    ensures var c, visited := Cell(face, x, y), before + RowCells(face, y, x);
            && TableOf(l, before + RowCells(face, y, x + 1)) == TableOf(l, visited)[KeyOf(c) := BoundsOf(l, c)]
            && OrderOf(before + RowCells(face, y, x + 1)) == Insert(OrderOf(visited), KeyOf(c))
  {
    var c, visited := Cell(face, x, y), before + RowCells(face, y, x);
    assert before + RowCells(face, y, x + 1) == visited + [c];
    assert (visited + [c])[..|visited|] == visited;
  }

  /** Filling row `y` after rows `0..y-1` of a face has filled rows `0..y`. */
  lemma FaceStep(l: Layout, before: seq<Cell>, face: FaceIndex, tiles: nat, y: nat)
    requires WellFormed(l)
    ensures TableOf(l, before + FaceCells(face, tiles, y + 1)) == TableOf(l, before + FaceCells(face, tiles, y) + RowCells(face, y, tiles))
    ensures OrderOf(before + FaceCells(face, tiles, y + 1)) == OrderOf(before + FaceCells(face, tiles, y) + RowCells(face, y, tiles))
  {
    assert before + FaceCells(face, tiles, y + 1) == before + FaceCells(face, tiles, y) + RowCells(face, y, tiles);
  }

  /** Adds `k` at the end of `o` unless it is there already: a dictionary's key order under insertion. */
  function Insert(o: seq<TileKey>, k: TileKey): (r: seq<TileKey>)
    ensures Elems(r) == Elems(o) + {k}
    ensures NoDup(o) ==> NoDup(r)
  {
    if k in o then o
    else
      assert NoDup(o) ==> NoDup(o + [k]) by {
        if NoDup(o) {
          NoDupConcat(o, [k]);
        }
      }
      o + [k]
  }

  /** Row `y` of `face`, columns `0..k-1`, inserted into table `m` one cell at a time. */
  function RowTable(m: map<TileKey, TileBounds>, l: Layout, face: FaceIndex, y: int, k: nat): map<TileKey, TileBounds>
    requires WellFormed(l)
  {
    if k == 0 then m
    else
      var c := Cell(face, k - 1, y);
      RowTable(m, l, face, y, k - 1)[KeyOf(c) := BoundsOf(l, c)]
  }

  /** Rows `0..k-1` of `face` inserted into `m`. */
  function FaceTable(m: map<TileKey, TileBounds>, l: Layout, face: FaceIndex, tiles: nat, k: nat): map<TileKey, TileBounds>
    requires WellFormed(l)
  {
    if k == 0 then m else RowTable(FaceTable(m, l, face, tiles, k - 1), l, face, k - 1, tiles)
  }

  /** Faces `0..k-1` inserted into an empty table. */
  function GridTableUpTo(l: Layout, tiles: nat, k: nat): map<TileKey, TileBounds>
    requires WellFormed(l) && k <= 6
  {
    if k == 0 then map[] else FaceTable(GridTableUpTo(l, tiles, k - 1), l, k - 1, tiles, tiles)
  }

  /** The key order after inserting row `y` of `face`, columns `0..k-1`. */
  function RowOrder(o: seq<TileKey>, face: FaceIndex, y: int, k: nat): seq<TileKey> {
    if k == 0 then o else Insert(RowOrder(o, face, y, k - 1), KeyOf(Cell(face, k - 1, y)))
  }

  function FaceOrder(o: seq<TileKey>, face: FaceIndex, tiles: nat, k: nat): seq<TileKey> {
    if k == 0 then o else RowOrder(FaceOrder(o, face, tiles, k - 1), face, k - 1, tiles)
  }

  function GridOrderUpTo(tiles: nat, k: nat): seq<TileKey>
    requires k <= 6
  {
    if k == 0 then [] else FaceOrder(GridOrderUpTo(tiles, k - 1), k - 1, tiles, tiles)
  }

  /** Inserting a row cell by cell is inserting the row's cells in enumeration order. */
  lemma {:induction false} RowBridge(l: Layout, before: seq<Cell>, face: FaceIndex, y: int, k: nat)
    requires WellFormed(l)
    ensures RowTable(TableOf(l, before), l, face, y, k) == TableOf(l, before + RowCells(face, y, k))
    ensures RowOrder(OrderOf(before), face, y, k) == OrderOf(before + RowCells(face, y, k))
  {
    if k == 0 {
      assert before + RowCells(face, y, 0) == before;
    } else {
      RowBridge(l, before, face, y, k - 1);
      InsertStep(l, before, face, y, k - 1);
    }
  }

  lemma {:induction false} FaceBridge(l: Layout, before: seq<Cell>, face: FaceIndex, tiles: nat, k: nat)
    requires WellFormed(l)
    ensures FaceTable(TableOf(l, before), l, face, tiles, k) == TableOf(l, before + FaceCells(face, tiles, k))
    ensures FaceOrder(OrderOf(before), face, tiles, k) == OrderOf(before + FaceCells(face, tiles, k))
  {
    if k == 0 {
      assert before + FaceCells(face, tiles, 0) == before;
    } else {
      FaceBridge(l, before, face, tiles, k - 1);
      FaceBridgeNext(l, before, face, tiles, k - 1);
    }
  }

  /** The bridge for rows `0..y-1` extends to rows `0..y`. */
  lemma FaceBridgeNext(l: Layout, before: seq<Cell>, face: FaceIndex, tiles: nat, y: nat)
    requires WellFormed(l)
    requires FaceTable(TableOf(l, before), l, face, tiles, y) == TableOf(l, before + FaceCells(face, tiles, y))
    requires FaceOrder(OrderOf(before), face, tiles, y) == OrderOf(before + FaceCells(face, tiles, y))
    ensures FaceTable(TableOf(l, before), l, face, tiles, y + 1) == TableOf(l, before + FaceCells(face, tiles, y + 1))
    ensures FaceOrder(OrderOf(before), face, tiles, y + 1) == OrderOf(before + FaceCells(face, tiles, y + 1))
  {
    FaceBridgeStep(l, before, face, tiles, y);
  }

  /** Rows `0..y-1` filled, filling row `y` gives the table and order of rows `0..y`. */
  lemma FaceBridgeStep(l: Layout, before: seq<Cell>, face: FaceIndex, tiles: nat, y: nat)
    requires WellFormed(l)
    ensures RowTable(TableOf(l, before + FaceCells(face, tiles, y)), l, face, y, tiles) == TableOf(l, before + FaceCells(face, tiles, y + 1))
    ensures RowOrder(OrderOf(before + FaceCells(face, tiles, y)), face, y, tiles) == OrderOf(before + FaceCells(face, tiles, y + 1))
  {
    RowBridge(l, before + FaceCells(face, tiles, y), face, y, tiles);
    FaceStep(l, before, face, tiles, y);
  }

  /** Filling face by face, row by row, column by column builds exactly `TableOf` and `OrderOf` of the grid. */
  lemma {:induction false} GridBridge(l: Layout, tiles: nat, k: nat)
    requires WellFormed(l) && k <= 6
    ensures GridTableUpTo(l, tiles, k) == TableOf(l, GridCells(tiles, k))
    ensures GridOrderUpTo(tiles, k) == OrderOf(GridCells(tiles, k))
  {
    if k > 0 {
      GridBridge(l, tiles, k - 1);
      FaceBridge(l, GridCells(tiles, k - 1), k - 1, tiles, tiles);
    }
  }

  lemma {:induction false} FromTableFrame(order: seq<TileKey>, t: map<TileKey, TileBounds>, t2: map<TileKey, TileBounds>, inFrustum: Frustum)
    requires forall k :: k in order ==> k in t && k in t2 && t[k] == t2[k]
    ensures FromTable(order, t, inFrustum) == FromTable(order, t2, inFrustum)
  {
    if order != [] {
      FromTableFrame(order[..|order| - 1], t, t2, inFrustum);
    }
  }

  /**
   * When no two cells share a key, the table enumerates the keys in cell
   * order and the precomputed path yields exactly what the on-the-fly path
   * yields, in the same order.
   */
  lemma {:induction false} PathsAgreeOn(l: Layout, cells: seq<Cell>, inFrustum: Frustum)
    requires WellFormed(l) && NoDup(Keys(cells))
    ensures OrderOf(cells) == Keys(cells)
    ensures TableOf(l, cells).Keys == Elems(Keys(cells))
    ensures FromTable(OrderOf(cells), TableOf(l, cells), inFrustum) == OnTheFly(l, cells, inFrustum)
  {
    TableKeys(l, cells);
    if cells != [] {
      var init, c := cells[..|cells| - 1], cells[|cells| - 1];
      assert Keys(cells) == Keys(init) + [KeyOf(c)];
      NoDupSnoc(Keys(init), KeyOf(c));
      PathsAgreeOn(l, init, inFrustum);
      var t := TableOf(l, init);
      var order := OrderOf(init);
      assert OrderOf(cells) == order + [KeyOf(c)];
      assert (order + [KeyOf(c)])[..|order|] == order;
      FromTableFrame(order, t[KeyOf(c) := BoundsOf(l, c)], t, inFrustum);
    }
  }

  lemma {:induction false} OnTheFlyNoDup(l: Layout, cells: seq<Cell>, inFrustum: Frustum)
    requires WellFormed(l) && NoDup(Keys(cells))
    ensures NoDup(OnTheFly(l, cells, inFrustum))
  {
    if cells != [] {
      var init, c := cells[..|cells| - 1], cells[|cells| - 1];
      assert Keys(cells) == Keys(init) + [KeyOf(c)];
      NoDupSnoc(Keys(init), KeyOf(c));
      OnTheFlyNoDup(l, init, inFrustum);
      NoDupConcat(OnTheFly(l, init, inFrustum), if inFrustum(BoundsOf(l, c)) then [KeyOf(c)] else []);
    }
  }

  lemma {:induction false} FromTableNoDup(order: seq<TileKey>, table: map<TileKey, TileBounds>, inFrustum: Frustum)
    requires forall k :: k in order ==> k in table
    requires NoDup(order)
    ensures NoDup(FromTable(order, table, inFrustum))
  {
    if order != [] {
      var init, k := order[..|order| - 1], order[|order| - 1];
      assert order == init + [k];
      NoDupSnoc(init, k);
      FromTableNoDup(init, table, inFrustum);
      NoDupConcat(FromTable(init, table, inFrustum), if inFrustum(table[k]) then [k] else []);
    }
  }

  lemma {:induction false} FaceLength(face: FaceIndex, tiles: nat, k: nat)
    ensures |FaceCells(face, tiles, k)| == k * tiles
  {
    if k > 0 {
      FaceLength(face, tiles, k - 1);
      assert (k - 1) * tiles + tiles == k * tiles;
    }
  }

  lemma {:induction false} GridCellsLength(tiles: nat, k: nat)
    requires k <= 6
    ensures |GridCells(tiles, k)| == k * (tiles * tiles)
  {
    if k > 0 {
      GridCellsLength(tiles, k - 1);
      FaceLength(k - 1, tiles, tiles);
      assert (k - 1) * (tiles * tiles) + tiles * tiles == k * (tiles * tiles);
    }
  }

  /** For `T <= 65536` the grid has `6·T²` distinct keys, and the two paths agree. */
  lemma PathsAgree(l: Layout, inFrustum: Frustum)
    requires WellFormed(l) && l.tiles <= 0x1_0000
    ensures NoDup(Keys(Grid(l.tiles))) && |Keys(Grid(l.tiles))| == 6 * (l.tiles * l.tiles)
    ensures |TableOf(l, Grid(l.tiles))| == 6 * (l.tiles * l.tiles)
    ensures OrderOf(Grid(l.tiles)) == Keys(Grid(l.tiles)) && TableOf(l, Grid(l.tiles)).Keys == Elems(Keys(Grid(l.tiles)))
    ensures FromTable(OrderOf(Grid(l.tiles)), TableOf(l, Grid(l.tiles)), inFrustum) == OnTheFly(l, Grid(l.tiles), inFrustum)
    ensures NoDup(OnTheFly(l, Grid(l.tiles), inFrustum))
  {
    var g := Grid(l.tiles);
    GridKeysNoDup(l.tiles);
    GridCellsLength(l.tiles, 6);
    PathsAgreeOn(l, g, inFrustum);
    NoDupCard(Keys(g));
    OnTheFlyNoDup(l, g, inFrustum);
  }

  /**
   * What the filled table holds: exactly the grid's keys, each enumerated
   * once, and for `T <= 65536` one entry per cell.
   */
  lemma GridTable(l: Layout, table: map<TileKey, TileBounds>, order: seq<TileKey>)
    requires WellFormed(l)
    requires table == TableOf(l, Grid(l.tiles)) && order == OrderOf(Grid(l.tiles))
    ensures table.Keys == Elems(order) && NoDup(order)
    ensures forall k :: k in table <==> InGrid(k, l.tiles)
    ensures l.tiles <= 0x1_0000 ==> |table| == 6 * (l.tiles * l.tiles)
  {
    var g := Grid(l.tiles);
    TableKeys(l, g);
    KeysOfGridInGrid(l.tiles);
    if l.tiles <= 0x1_0000 {
      PathsAgree(l, AllPass);
    }
  }

  /** A frustum that every box passes. */
  function AllPass(b: TileBounds): bool {
    true
  }

  lemma {:induction false} AllPassYieldsKeys(l: Layout, cells: seq<Cell>)
    requires WellFormed(l)
    ensures OnTheFly(l, cells, AllPass) == Keys(cells)
  {
    if cells != [] {
      AllPassYieldsKeys(l, cells[..|cells| - 1]);
    }
  }

  /** Two equal elements at different positions rule out duplicate-freedom. */
  lemma Repeated<T>(s: seq<T>, i: nat, j: nat)
    requires i < j < |s| && s[i] == s[j]
    ensures !NoDup(s)
  {
    if NoDup(s) {
      NoDupAt(s, i);
    }
  }

  /**
   * Beyond 65536 tiles per side the narrowing casts make distinct cells share
   * a key: the on-the-fly path then yields a key twice, while the table holds
   * it once, so the two paths no longer agree.
   */
  lemma PathsDivergeBeyondKeyRange(l: Layout)
    requires WellFormed(l) && l.tiles > 0x1_0000
    ensures var g := Grid(l.tiles);
            && Cell(0, 0, 0) in g && Cell(0, 0x1_0000, 0) in g
            && KeyOf(Cell(0, 0, 0)) == KeyOf(Cell(0, 0x1_0000, 0))
            && !NoDup(OnTheFly(l, g, AllPass))
            && TableOf(l, g).Keys == Elems(OrderOf(g))
            && FromTable(OrderOf(g), TableOf(l, g), AllPass) != OnTheFly(l, g, AllPass)
  {
    var g := Grid(l.tiles);
    var c0, c1 := Cell(0, 0, 0), Cell(0, 0x1_0000, 0);
    GridCellsHas(l.tiles, 6, c0);
    GridCellsHas(l.tiles, 6, c1);
    var i :| 0 <= i < |g| && g[i] == c0;
    var j :| 0 <= j < |g| && g[j] == c1;
    AllPassYieldsKeys(l, g);
    var ks := Keys(g);
    assert ks[i] == ks[j] && i != j;
    if i < j {
      Repeated(ks, i, j);
    } else {
      Repeated(ks, j, i);
    }
    TableKeys(l, g);
    FromTableNoDup(OrderOf(g), TableOf(l, g), AllPass);
  }

  class FrustumCullingProvider {
    const precomputeEnabled: bool
    var tilesPerSide: int
    const axisA: array<Vec3>
    const axisB: array<Vec3>
    /** The precomputed boxes, and their keys in the table's enumeration order. */
    var pre: map<TileKey, TileBounds>
    var preOrder: seq<TileKey>
    var sphereRadius: real
    var heightMap: Option<Texture>
    var heightScale: real
    var uniformScale: real

    /** The axis tables hold each face's derived axes, in face order. */
    ghost predicate AxesValid()
      reads axisA, axisB
    {
      && axisA.Length == 6 && axisB.Length == 6
      && (forall i :: 0 <= i < 6 ==> axisA[i] == AxesOf(FaceUp[i]).axisA && axisB[i] == AxesOf(FaceUp[i]).axisB)
    }

    /** The axis tables are set up, `T >= 1`, and the table holds grid keys only, enumerated once each. */
    ghost predicate Valid()
      reads this, axisA, axisB
    {
      && AxesValid()
      && tilesPerSide >= 1
      && NoDup(preOrder) && Elems(preOrder) == pre.Keys
      && (forall k :: k in pre ==> InGrid(k, tilesPerSide))
    }

    /** `l` describes the stored axis tables, `T`, the radius and `halfRange`. */
    ghost predicate Fits(l: Layout, halfRange: real)
      reads this`tilesPerSide, this`sphereRadius, axisA, axisB
    {
      && axisA.Length == 6 && axisB.Length == 6
      && l == Layout(axisA[..], axisB[..], tilesPerSide, sphereRadius, halfRange)
      && tilesPerSide >= 1
    }

    /** The stored parameters every box is computed from. */
    function CurrentLayout(): (l: Layout)
      reads this`tilesPerSide, this`sphereRadius, this`heightMap, this`heightScale, this`uniformScale, axisA, axisB
      requires axisA.Length == 6 && axisB.Length == 6 && tilesPerSide >= 1
      ensures WellFormed(l)
    {
      Layout(axisA[..], axisB[..], tilesPerSide, sphereRadius,
             HalfRange(sphereRadius, heightMap, heightScale, uniformScale, tilesPerSide))
    }

    constructor (tilesPerSide: int, usePrecompute: bool)
      ensures Valid()
      ensures this.tilesPerSide == (if tilesPerSide < 1 then 1 else tilesPerSide) && precomputeEnabled == usePrecompute
      ensures pre == map[] && preOrder == []
      ensures sphereRadius == 0.0 && heightMap == None && heightScale == 0.0 && uniformScale == 0.0
    {
      this.tilesPerSide := if tilesPerSide < 1 then 1 else tilesPerSide;
      precomputeEnabled := usePrecompute;
      var a := new Vec3[6](_ => Vec3(0, 0, 0));
      var b := new Vec3[6](_ => Vec3(0, 0, 0));
      for i := 0 to 6
        invariant forall j :: 0 <= j < i ==> a[j] == AxesOf(FaceUp[j]).axisA && b[j] == AxesOf(FaceUp[j]).axisB
      {
        var up := FaceUp[i];
        a[i] := Vec3(up.y, up.z, up.x);
        b[i] := Cross(up, a[i]);
      }
      axisA, axisB := a, b;
      pre, preOrder := map[], [];
      sphereRadius, heightMap, heightScale, uniformScale := 0.0, None, 0.0, 0.0;
    }

    /**
     * Stores the parameters, clears the table and, with precomputation on,
     * fills it with every grid cell's box in face, row, column order.
     */
    method RebuildPrecompute(sphereRadius: real, heightMap: Option<Texture>, heightScale: real,
                             uniformGlobalScale: real, tilesPerSide: int)
      requires Valid()
      modifies this
      ensures Valid()
      ensures this.sphereRadius == sphereRadius && this.heightMap == heightMap
      ensures this.heightScale == heightScale && uniformScale == uniformGlobalScale
      ensures this.tilesPerSide == (if tilesPerSide < 1 then 1 else tilesPerSide)
      ensures !precomputeEnabled ==> pre == map[] && preOrder == []
      ensures precomputeEnabled ==>
                pre == TableOf(CurrentLayout(), Grid(this.tilesPerSide)) && preOrder == OrderOf(Grid(this.tilesPerSide))
      ensures precomputeEnabled ==> forall k :: k in pre <==> InGrid(k, this.tilesPerSide)
      ensures precomputeEnabled && this.tilesPerSide <= 0x1_0000 ==> |pre| == 6 * (this.tilesPerSide * this.tilesPerSide)
    {
      Store(sphereRadius, heightMap, heightScale, uniformGlobalScale, tilesPerSide);
      if precomputeEnabled {
        FillTable();
      }
    }

    /** Stores the parameters, `T` clamped to at least 1, and clears the table. */
    method Store(sphereRadius: real, heightMap: Option<Texture>, heightScale: real,
                 uniformGlobalScale: real, tilesPerSide: int)
      requires AxesValid()
      modifies this
      ensures Valid()
      ensures this.sphereRadius == sphereRadius && this.heightMap == heightMap
      ensures this.heightScale == heightScale && uniformScale == uniformGlobalScale
      ensures this.tilesPerSide == (if tilesPerSide < 1 then 1 else tilesPerSide)
      ensures pre == map[] && preOrder == []
    {
      this.sphereRadius, this.heightMap, this.heightScale, uniformScale := sphereRadius, heightMap, heightScale, uniformGlobalScale;
      this.tilesPerSide := if tilesPerSide < 1 then 1 else tilesPerSide;
      pre, preOrder := map[], [];
    }

    /** Fills the empty table for the stored parameters. */
    method FillTable()
      requires Valid() && pre == map[] && preOrder == []
      modifies this`pre, this`preOrder
      ensures Valid()
      ensures pre == TableOf(CurrentLayout(), Grid(tilesPerSide)) && preOrder == OrderOf(Grid(tilesPerSide))
      ensures forall k :: k in pre <==> InGrid(k, tilesPerSide)
      ensures tilesPerSide <= 0x1_0000 ==> |pre| == 6 * (tilesPerSide * tilesPerSide)
    {
      var halfRange := HalfRange(sphereRadius, heightMap, heightScale, uniformScale, tilesPerSide);
      ghost var l := CurrentLayout();
      FillAll(halfRange, l);
      GridTable(l, pre, preOrder);
    }

    /** Inserts the boxes of every face into the empty table. */
    method FillAll(halfRange: real, ghost l: Layout)
      requires Fits(l, halfRange) && pre == map[] && preOrder == []
      modifies this`pre, this`preOrder
      ensures pre == TableOf(l, Grid(tilesPerSide)) && preOrder == OrderOf(Grid(tilesPerSide))
    {
      var t: nat := tilesPerSide;
      for face := 0 to 6
        invariant pre == GridTableUpTo(l, t, face) && preOrder == GridOrderUpTo(t, face)
      {
        FillFace(face, halfRange, l);
      }
      GridBridge(l, t, 6);
    }

    /** Inserts the boxes of every row of `face`. */
    method FillFace(face: FaceIndex, halfRange: real, ghost l: Layout)
      requires Fits(l, halfRange)
      modifies this`pre, this`preOrder
      ensures pre == FaceTable(old(pre), l, face, tilesPerSide, tilesPerSide)
      ensures preOrder == FaceOrder(old(preOrder), face, tilesPerSide, tilesPerSide)
    {
      var t: nat := tilesPerSide;
      for y := 0 to t
        invariant pre == FaceTable(old(pre), l, face, t, y)
        invariant preOrder == FaceOrder(old(preOrder), face, t, y)
      {
        FillRow(face, y, halfRange, l);
      }
    }

    /** Inserts the boxes of row `y` of `face`, column by column. */
    method FillRow(face: FaceIndex, y: int, halfRange: real, ghost l: Layout)
      requires Fits(l, halfRange)
      modifies this`pre, this`preOrder
      ensures pre == RowTable(old(pre), l, face, y, tilesPerSide)
      ensures preOrder == RowOrder(old(preOrder), face, y, tilesPerSide)
    {
      var t: nat := tilesPerSide;
      var up, a, b := FaceUp[face], axisA[face], axisB[face];
      var sy := Signed(y, t);
      for x := 0 to t
        invariant pre == RowTable(old(pre), l, face, y, x)
        invariant preOrder == RowOrder(old(preOrder), face, y, x)
      {
        var key := MakeKey(face, x, y);
        var sx := Signed(x, t);
        var pCube := Plus(Plus(Scale(a, sx), Scale(b, sy)), ToReal(up));
        pre := pre[key := TileBounds(pCube, sphereRadius, halfRange)];
        if key !in preOrder {
          preOrder := preOrder + [key];
        }
      }
    }

    /**
     * The keys of the tiles whose box passes the frustum test of the camera,
     * none without a camera: from the table when precomputation is on,
     * otherwise from boxes computed cell by cell.
     */
    function GetVisibleKeys(camera: Option<Frustum>): (r: seq<TileKey>)
      reads this, axisA, axisB
      requires Valid()
      ensures camera.None? ==> r == []
    {
      if camera.None? then []
      else if precomputeEnabled then FromTable(preOrder, pre, camera.value)
      else OnTheFly(CurrentLayout(), Grid(tilesPerSide), camera.value)
    }

    /**
     * Once the table has been rebuilt for the stored parameters, and for
     * `T <= 65536`, the query yields the same keys in the same order with
     * precomputation on as without it.
     */
    lemma PrecomputeMatchesOnTheFly(camera: Frustum)
      requires Valid() && tilesPerSide <= 0x1_0000
      requires precomputeEnabled ==>
                 pre == TableOf(CurrentLayout(), Grid(tilesPerSide)) && preOrder == OrderOf(Grid(tilesPerSide))
      ensures GetVisibleKeys(Some(camera)) == OnTheFly(CurrentLayout(), Grid(tilesPerSide), camera)
    {
      PathsAgree(CurrentLayout(), camera);
    }

    /**
     * Every yielded key is a tile of the grid, and no key is yielded twice:
     * always from the table, and on the fly as long as `T <= 65536`.
     */
    lemma VisibleKeysSound(camera: Option<Frustum>)
      requires Valid()
      ensures forall k :: k in GetVisibleKeys(camera) ==> InGrid(k, tilesPerSide)
      ensures precomputeEnabled || tilesPerSide <= 0x1_0000 ==> NoDup(GetVisibleKeys(camera))
    {
      if camera.Some? {
        if precomputeEnabled {
          FromTableNoDup(preOrder, pre, camera.value);
        } else {
          KeysOfGridInGrid(tilesPerSide);
          if tilesPerSide <= 0x1_0000 {
            PathsAgree(CurrentLayout(), camera.value);
          }
        }
      }
    }

    /** `GetFaceAxes`: the clamped face's normal with the stored axes, which are `GetAxes`'s. */
    function GetFaceAxes(face: byte): (f: Frame)
      reads this, axisA, axisB
      requires Valid()
      ensures f == GetAxes(face)
    {
      var i := ClampFace(face);
      Frame(FaceUp[i], axisA[i], axisB[i])
    }
  }
}
