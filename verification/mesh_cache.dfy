/**
 * The shared index buffer and vertex-percent table of an r×r vertex grid,
 * built once per resolution and handed out again afterwards.
 */
module Meshing {

  /** Number of quads along one side of an r×r vertex grid (negative below one vertex). */
  function Side(res: int): int {
    res - 1
  }

  /** Length of the triangle buffer: six indices per quad, `6·(res−1)²`. */
  function TriangleCount(res: int): nat {
    6 * (Side(res) * Side(res))
  }

  /**
   * Index `c` (0..5) of quad `(x, y)`: with `i = y·res + x` the two triangles
   * are `(i, i+res+1, i+res)` and `(i, i+1, i+res+1)`.
   */
  function Corner(res: int, x: int, y: int, c: int): int {
    var i := y * res + x;
    if c == 0 || c == 3 then i
    else if c == 1 || c == 5 then i + res + 1
    else if c == 2 then i + res
    else i + 1
  }

  /** The six indices of the quad whose lower-left vertex is `i`. */
  function Quad(res: int, i: int): (r: seq<int>)
    ensures |r| == 6
  {
    [i, i + res + 1, i + res, i, i + 1, i + res + 1]
  }

  /** Index of the first vertex of row `y`, `y·res`, accumulated row by row. */
  function RowStart(res: int, y: nat): int {
    if y == 0 then 0 else RowStart(res, y - 1) + res
  }

  /** The quads `0..k-1` of the row starting at vertex `row`, in order. */
  function RowQuads(res: int, row: int, k: nat): (r: seq<int>)
    ensures |r| == 6 * k
  {
    if k == 0 then [] else RowQuads(res, row, k - 1) + Quad(res, row + (k - 1))
  }

  /** The rows `0..k-1` of an `n`-quad-wide grid, in order. */
  function Rows(res: int, n: nat, k: nat): seq<int> {
    if k == 0 then [] else Rows(res, n, k - 1) + RowQuads(res, RowStart(res, k - 1), n)
  }

  /**
   * The triangle buffer for resolution `res`. Below two vertices per side no
   * quad is written and the buffer keeps its zeros.
   */
  function Triangles(res: int): seq<int> {
    if Side(res) < 1 then seq(TriangleCount(res), _ => 0) else Rows(res, Side(res), Side(res))
  }

  lemma {:induction false} RowStartIs(res: int, y: nat)
    ensures RowStart(res, y) == y * res
  {
    if y > 0 {
      RowStartIs(res, y - 1);
      assert (y - 1) * res + res == y * res;
    }
  }

  lemma {:induction false} RowsLength(res: int, n: nat, k: nat)
    ensures |Rows(res, n, k)| == 6 * (k * n)
  {
    if k > 0 {
      RowsLength(res, n, k - 1);
      assert (k - 1) * n + n == k * n;
    }
  }

  lemma {:induction false} RowQuadsPrefix(res: int, row: int, k: nat, k2: nat)
    requires k <= k2
    ensures RowQuads(res, row, k) == RowQuads(res, row, k2)[..6 * k]
    decreases k2
  {
    if k < k2 {
      RowQuadsPrefix(res, row, k, k2 - 1);
    }
  }

  /** `y·n + x + 1 <= n²` for a quad `(x, y)` of an `n×n` quad grid. */
  lemma QuadFits(n: int, x: int, y: int)
    requires 0 <= x < n && 0 <= y < n
    ensures y * n + x + 1 <= n * n
  {
    var d := n - y - 1;
    assert d * n >= 0;
    assert n * n == (y + 1) * n + d * n;
  }

  /** Entry `6x + c` of a row is entry `c` of its quad `x`. */
  lemma QuadInRow(res: int, row: int, x: nat, c: nat, k: nat)
    requires x < k && c < 6
    ensures 6 * x + c < |RowQuads(res, row, k)| && RowQuads(res, row, k)[6 * x + c] == Quad(res, row + x)[c]
  {
    RowQuadsPrefix(res, row, x + 1, k);
    assert RowQuads(res, row, x + 1) == RowQuads(res, row, x) + Quad(res, row + x);
  }

  lemma AppendIndex(a: seq<int>, r: seq<int>, j: nat)
    requires j < |r|
    ensures |a| + j < |a + r| && (a + r)[|a| + j] == r[j]
  {
  }

  /** In the first `k` rows, row `y` starts right after rows `0..y-1`. */
  lemma {:induction false} RowInRows(res: int, n: nat, k: nat, y: nat, j: nat)
    requires y < k && j < 6 * n
    ensures |Rows(res, n, y)| + j < |Rows(res, n, k)|
    ensures Rows(res, n, k)[|Rows(res, n, y)| + j] == RowQuads(res, RowStart(res, y), n)[j]
  {
    var a, r := Rows(res, n, k - 1), RowQuads(res, RowStart(res, k - 1), n);
    assert Rows(res, n, k) == a + r;
    if y == k - 1 {
      AppendIndex(a, r, j);
    } else {
      RowInRows(res, n, k - 1, y, j);
      assert (a + r)[|Rows(res, n, y)| + j] == a[|Rows(res, n, y)| + j];
    }
  }

  /**
   * The buffer has `6·(res−1)²` entries, and entries `6q..6q+5` are the six
   * corners of quad `(x, y)`, `q = y·(res−1) + x`.
   */
  lemma QuadEntries(res: int, x: int, y: int, c: int)
    requires 0 <= x < Side(res) && 0 <= y < Side(res) && 0 <= c < 6
    ensures |Triangles(res)| == TriangleCount(res)
    ensures 6 * (y * Side(res) + x) + c < |Triangles(res)|
    ensures Triangles(res)[6 * (y * Side(res) + x) + c] == Corner(res, x, y, c)
  {
    var n := Side(res);
    RowsLength(res, n, n);
    RowsLength(res, n, y);
    RowStartIs(res, y);
    QuadInRow(res, RowStart(res, y), x, c, n);
    RowInRows(res, n, n, y, 6 * x + c);
    assert 6 * (y * n + x) + c == |Rows(res, n, y)| + (6 * x + c);
  }

  /** Every index of a quad of the grid is a vertex of the grid: `0 <= index < res²`. */
  lemma QuadInRange(res: int, x: int, y: int, i: int)
    requires 0 <= x < Side(res) && 0 <= y < Side(res) && i == y * res + x
    ensures forall v :: v in Quad(res, i) ==> 0 <= v < res * res
  {
    assert 0 <= y * res;
    var d := res - 2 - y;
    assert d * res >= 0;
    assert res * res == y * res + 2 * res + d * res;
  }

  lemma {:induction false} RowQuadsInRange(res: int, y: nat, k: nat)
    requires y < Side(res) && k <= Side(res)
    ensures forall v :: v in RowQuads(res, RowStart(res, y), k) ==> 0 <= v < res * res
  {
    if k > 0 {
      RowQuadsInRange(res, y, k - 1);
      RowStartIs(res, y);
      QuadInRange(res, k - 1, y, RowStart(res, y) + (k - 1));
    }
  }

  lemma {:induction false} RowsInRange(res: int, k: nat)
    requires 1 <= Side(res) && k <= Side(res)
    ensures forall v :: v in Rows(res, Side(res), k) ==> 0 <= v < res * res
  {
    if k > 0 {
      RowsInRange(res, k - 1);
      RowQuadsInRange(res, k - 1, Side(res));
    }
  }

  /** For at least two vertices per side every entry is a vertex of the grid: `0 <= index < res²`. */
  lemma TrianglesInRange(res: int)
    requires res >= 2
    ensures forall v :: v in Triangles(res) ==> 0 <= v < res * res
  {
    RowsInRange(res, Side(res));
  }

  /** Below two vertices per side the buffer holds only zeros. */
  lemma DegenerateTriangles(res: int)
    requires res < 2
    ensures |Triangles(res)| == TriangleCount(res)
    ensures forall t :: 0 <= t < |Triangles(res)| ==> Triangles(res)[t] == 0
  {
  }

  /**
   * What `GetPercents` stores for a vertex: its percent pair
   * `(x/(res−1), y/(res−1))`, kept as the grid coordinates it is computed from.
   */
  datatype Percent = Percent(x: int, y: int)

  /** The vertices `0..k-1` of row `y`, in order. */
  function PercentRow(y: int, k: int): (r: seq<Percent>)
    ensures |r| == if k <= 0 then 0 else k
    ensures forall x :: 0 <= x < k ==> r[x] == Percent(x, y)
    decreases k
  {
    if k <= 0 then [] else PercentRow(y, k - 1) + [Percent(k - 1, y)]
  }

  /** The full rows `0..k-1` of vertices, in order. */
  function PercentRows(res: int, k: int): seq<Percent>
    decreases k
  {
    if k <= 0 then [] else PercentRows(res, k - 1) + PercentRow(k - 1, res)
  }

  /** The percent table for resolution `res`; below one vertex per side it keeps its defaults. */
  function Percents(res: int): seq<Percent> {
    if res < 1 then seq(res * res, _ => Percent(0, 0)) else PercentRows(res, res)
  }

  lemma {:induction false} PercentRowsLength(res: int, k: nat)
    requires res >= 1
    ensures |PercentRows(res, k)| == k * res
  {
    if k > 0 {
      PercentRowsLength(res, k - 1);
      assert (k - 1) * res + res == k * res;
    }
  }

  lemma {:induction false} PercentRowsPrefix(res: int, k: nat, k2: nat)
    requires k <= k2
    ensures |PercentRows(res, k)| <= |PercentRows(res, k2)|
    ensures PercentRows(res, k) == PercentRows(res, k2)[..|PercentRows(res, k)|]
    decreases k2
  {
    if k < k2 {
      PercentRowsPrefix(res, k, k2 - 1);
    }
  }

  /** The table has `res²` entries and vertex `(x, y)` sits at index `x + y·res`. */
  lemma PercentIndexing(res: int, x: int, y: int)
    requires 0 <= x < res && 0 <= y < res
    ensures |Percents(res)| == res * res
    ensures x + y * res < res * res && Percents(res)[x + y * res] == Percent(x, y)
  {
    PercentRowsLength(res, res);
    PercentRowsLength(res, y);
    PercentRowsPrefix(res, y + 1, res);
    QuadFits(res, x, y);
    assert Percents(res)[x + y * res] == PercentRows(res, y + 1)[y * res + x];
  }

  /** Builds the triangle buffer: rows of quads, six indices each, in a running position. */
  method BuildTriangles(res: int) returns (tris: array<int>)
    ensures fresh(tris) && tris[..] == Triangles(res)
  {
    var n := Side(res);
    tris := new int[TriangleCount(res)](_ => 0);
    if n < 1 {
      return;
    }
    RowsLength(res, n, n);
    var ti := 0;
    var y := 0;
    while y < n
      invariant 0 <= y <= n && ti == |Rows(res, n, y)| && ti <= tris.Length && tris[..ti] == Rows(res, n, y)
    {
      RowsLength(res, n, y);
      QuadFits(n, n - 1, y);
      ti := WriteQuadRow(tris, res, y, ti);
      y := y + 1;
    }
    assert tris[..] == tris[..ti];
  }

  /** Writes row `y` of quads at position `ti`; returns the position after it. */
  method WriteQuadRow(tris: array<int>, res: int, y: int, ti: int) returns (next: int)
    requires 0 <= y < Side(res) && 0 <= ti && ti + 6 * Side(res) <= tris.Length
    requires tris[..ti] == Rows(res, Side(res), y)
    modifies tris
    ensures next == ti + 6 * Side(res) && tris[..next] == Rows(res, Side(res), y + 1)
  {
    var n := Side(res);
    var row := y * res;
    RowStartIs(res, y);
    next := ti;
    var x := 0;
    while x < n
      invariant 0 <= x <= n && next == ti + 6 * x
      invariant tris[..next] == Rows(res, n, y) + RowQuads(res, row, x)
    {
      WriteQuad(tris, res, row + x, next);
      next := next + 6;
      x := x + 1;
    }
  }

  /** Writes the six indices of the quad with lower-left vertex `i` at position `ti`. */
  method WriteQuad(tris: array<int>, res: int, i: int, ti: int)
    requires 0 <= ti && ti + 6 <= tris.Length
    modifies tris
    ensures tris[..ti + 6] == old(tris[..ti]) + Quad(res, i)
  {
    tris[ti] := i;
    tris[ti + 1] := i + res + 1;
    tris[ti + 2] := i + res;
    tris[ti + 3] := i;
    tris[ti + 4] := i + 1;
    tris[ti + 5] := i + res + 1;
  }

  /** Builds the percent table row by row in a running position. */
  method BuildPercents(res: int) returns (p: array<Percent>)
    ensures fresh(p) && p[..] == Percents(res)
  {
    p := new Percent[res * res](_ => Percent(0, 0));
    if res < 1 {
      return;
    }
    PercentRowsLength(res, res);
    var i := 0;
    var y := 0;
    while y < res
      invariant 0 <= y <= res && i == |PercentRows(res, y)| && i <= p.Length && p[..i] == PercentRows(res, y)
    {
      PercentRowsLength(res, y);
      QuadFits(res, res - 1, y);
      i := WritePercentRow(p, res, y, i);
      y := y + 1;
    }
    assert p[..] == p[..i];
  }

  /** Writes row `y` of the percent table at position `i`; returns the position after it. */
  method WritePercentRow(p: array<Percent>, res: int, y: int, i: int) returns (next: int)
    requires 0 <= y && 0 <= i && i + res <= p.Length && 0 <= res
    requires p[..i] == PercentRows(res, y)
    modifies p
    ensures next == i + res && p[..next] == PercentRows(res, y + 1)
  {
    next := i;
    var x := 0;
    while x < res
      invariant 0 <= x <= res && next == i + x
      invariant p[..next] == PercentRows(res, y) + PercentRow(y, x)
    {
      ghost var before := p[..next];
      p[next] := Percent(x, y);
      assert p[..next + 1] == before + [Percent(x, y)];
      next := next + 1;
      x := x + 1;
    }
  }

  /**
   * The two memo tables (static dictionaries in the program): one buffer per
   * resolution, built on first request.
   */
  class MeshCache {
    var triangles: map<int, array<int>>
    var percents: map<int, array<Percent>>

    /** Every cached array holds the contents for its resolution. */
    ghost predicate Valid()
      reads this, triangles.Values, percents.Values
    {
      && (forall r :: r in triangles ==> triangles[r][..] == Triangles(r))
      && (forall r :: r in percents ==> percents[r][..] == Percents(r))
    }

    constructor ()
      ensures Valid() && triangles == map[] && percents == map[]
    {
      triangles := map[];
      percents := map[];
    }

    /** The triangle buffer for `res`: the cached array if there is one, else a new one that is cached. */
    method GetTriangles(res: int) returns (tris: array<int>)
      requires Valid()
      modifies this
      ensures Valid() && percents == old(percents)
      ensures tris[..] == Triangles(res)
      ensures res in old(triangles) ==> tris == old(triangles)[res] && triangles == old(triangles)
      ensures res !in old(triangles) ==> fresh(tris) && triangles == old(triangles)[res := tris]
    {
      if res in triangles {
        return triangles[res];
      }
      tris := BuildTriangles(res);
      triangles := triangles[res := tris];
    }

    /** The percent table for `res`: the cached array if there is one, else a new one that is cached. */
    method GetPercents(res: int) returns (p: array<Percent>)
      requires Valid()
      modifies this
      ensures Valid() && triangles == old(triangles)
      ensures p[..] == Percents(res)
      ensures res in old(percents) ==> p == old(percents)[res] && percents == old(percents)
      ensures res !in old(percents) ==> fresh(p) && percents == old(percents)[res := p]
    {
      if res in percents {
        return percents[res];
      }
      p := BuildPercents(res);
      percents := percents[res := p];
    }
  }
}
