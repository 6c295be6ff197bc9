/** Orientation choice and the grid of panels laid over one wall: the
    specification the placement loops are proved against, and the
    geometric facts about it (panels inside the wall, pairwise disjoint,
    in row-major order, covering every visible part of the wall). */
module Tiling {
  import opened Geometry
  import opened Project

  /** Weight of one panel in the orientation score, so that the panel
      count dominates and the wasted area only breaks ties. */
  const PanelCountWeight := 10000

  datatype Orientation = Normal | Rotated

  /** A tiling choice: tile size in this orientation and tile counts. */
  datatype Config = Config(orientation: Orientation, tileWidth: int, tileHeight: int, columns: int, rows: int)

  /** A region cut out of a panel for an opening; (x, y) is global,
      (xLocal, yLocal) is relative to the panel's bottom-left corner. */
  datatype Cut = Cut(x: int, y: int, width: int, height: int, xLocal: int, yLocal: int, kind: string)
  {
    function Bounds(): Rect { Rect(x, y, width, height) }
  }

  datatype Panel = Panel(
    x: int,
    y: int,
    width: int,
    height: int,
    orientation: Orientation,
    needsTrim: bool,
    cuts: seq<Cut>)
  {
    function Bounds(): Rect { Rect(x, y, width, height) }
  }

  /** The engine's Math.ceil(a / b) for a positive divisor: the least q
      with q * b >= a. */
  function CeilDiv(a: int, b: int): (q: int)
    requires b > 0
    ensures q * b >= a && q * b - b < a
    ensures a > 0 ==> q >= 1
  {
    (a + b - 1) / b
  }

  /** The candidate tiling for one orientation: the panel as given or
      turned by 90 degrees, with ceiling tile counts. */
  function Candidate(o: Orientation, wallWidth: int, wallHeight: int, panelWidth: int, panelHeight: int): Config
    requires panelWidth > 0 && panelHeight > 0
  {
    match o
    case Normal => Config(Normal, panelWidth, panelHeight, CeilDiv(wallWidth, panelWidth), CeilDiv(wallHeight, panelHeight))
    case Rotated => Config(Rotated, panelHeight, panelWidth, CeilDiv(wallWidth, panelHeight), CeilDiv(wallHeight, panelWidth))
  }

  /** Panel count times the weight plus the area of panel material that
      overhangs the wall. */
  function Score(c: Config, wallWidth: int, wallHeight: int): int {
    var n := c.columns * c.rows;
    n * PanelCountWeight + (n * c.tileWidth * c.tileHeight - wallWidth * wallHeight)
  }

  /** A config whose tile counts are the ceilings for this wall. */
  predicate ValidConfig(c: Config, wallWidth: int, wallHeight: int) {
    && c.tileWidth > 0 && c.tileHeight > 0
    && wallWidth > 0 && wallHeight > 0
    && c.columns == CeilDiv(wallWidth, c.tileWidth)
    && c.rows == CeilDiv(wallHeight, c.tileHeight)
  }

  /** The orientation the engine keeps: the rotated one only when its
      score is strictly lower. */
  function BestConfig(wallWidth: int, wallHeight: int, panelWidth: int, panelHeight: int): (c: Config)
    requires wallWidth > 0 && wallHeight > 0 && panelWidth > 0 && panelHeight > 0
    ensures ValidConfig(c, wallWidth, wallHeight)
    ensures c.columns * c.tileWidth >= wallWidth && c.rows * c.tileHeight >= wallHeight
    ensures c.columns >= 1 && c.rows >= 1
  {
    var normal := Candidate(Normal, wallWidth, wallHeight, panelWidth, panelHeight);
    var rotated := Candidate(Rotated, wallWidth, wallHeight, panelWidth, panelHeight);
    if Score(rotated, wallWidth, wallHeight) < Score(normal, wallWidth, wallHeight) then rotated else normal
  }

  /** The kept tiling is one of the two candidates, scores no worse than
      either, and is the turned one exactly when that scores strictly lower. */
  lemma BestConfigScores(wallWidth: int, wallHeight: int, panelWidth: int, panelHeight: int)
    requires wallWidth > 0 && wallHeight > 0 && panelWidth > 0 && panelHeight > 0
    ensures var c := BestConfig(wallWidth, wallHeight, panelWidth, panelHeight);
      var normal := Candidate(Normal, wallWidth, wallHeight, panelWidth, panelHeight);
      var rotated := Candidate(Rotated, wallWidth, wallHeight, panelWidth, panelHeight);
      && (c == normal || c == rotated)
      && Score(c, wallWidth, wallHeight) <= Score(normal, wallWidth, wallHeight)
      && Score(c, wallWidth, wallHeight) <= Score(rotated, wallWidth, wallHeight)
      && (c.orientation == Rotated <==> Score(rotated, wallWidth, wallHeight) < Score(normal, wallWidth, wallHeight))
  {
  }

  /** The grid cell (row, col) clipped to the wall. */
  function CellRect(c: Config, wallWidth: int, wallHeight: int, row: int, col: int): Rect {
    var x := col * c.tileWidth;
    var y := row * c.tileHeight;
    Rect(x, y, Min(c.tileWidth, wallWidth - x), Min(c.tileHeight, wallHeight - y))
  }

  /** Some single opening contains r entirely. */
  function AnyContains(os: seq<Opening>, r: Rect): (b: bool)
    ensures b <==> exists k :: 0 <= k < |os| && Contains(os[k].Bounds(), r)
  {
    |os| > 0 && (Contains(os[0].Bounds(), r) || AnyContains(os[1..], r))
  }

  /** The cut an opening makes in the panel rectangle r. */
  function CutFor(r: Rect, o: Opening): (cut: Cut)
    ensures cut.kind == o.kind
    ensures cut.x == r.x + cut.xLocal && cut.y == r.y + cut.yLocal
    ensures Contains(r, cut.Bounds()) && Contains(o.Bounds(), cut.Bounds())
    ensures 0 <= cut.xLocal && cut.xLocal + cut.width <= r.width
    ensures 0 <= cut.yLocal && cut.yLocal + cut.height <= r.height
    ensures NonEmpty(r) && NonEmpty(o.Bounds()) ==> (NonEmpty(cut.Bounds()) <==> Overlaps(r, o.Bounds()))
  {
    var i := Intersection(r, o.Bounds());
    Cut(i.x, i.y, i.width, i.height, i.x - r.x, i.y - r.y, o.kind)
  }

  /** The cut removes exactly the unit squares of r that the opening covers. */
  lemma CutForPoints(r: Rect, o: Opening)
    ensures forall px, py :: HasPoint(CutFor(r, o).Bounds(), px, py) <==> HasPoint(r, px, py) && HasPoint(o.Bounds(), px, py)
  {
    IntersectionPoints(r, o.Bounds());
  }

  /** One cut per opening that overlaps r, in opening order. */
  function CutsFor(r: Rect, os: seq<Opening>): (cuts: seq<Cut>)
    ensures |cuts| <= |os|
  {
    if os == [] then []
    else
      var rest := CutsFor(r, os[..|os| - 1]);
      var o := os[|os| - 1];
      if Overlaps(r, o.Bounds()) then rest + [CutFor(r, o)] else rest
  }

  /** Each cut comes from an opening that overlaps r, and each opening that
      overlaps r gives its cut. */
  lemma {:induction false} CutsForMatchOpenings(r: Rect, os: seq<Opening>)
    ensures forall cut :: cut in CutsFor(r, os) ==>
      exists k :: 0 <= k < |os| && Overlaps(r, os[k].Bounds()) && cut == CutFor(r, os[k])
    ensures forall k :: 0 <= k < |os| && Overlaps(r, os[k].Bounds()) ==> CutFor(r, os[k]) in CutsFor(r, os)
  {
    if os != [] {
      var init := os[..|os| - 1];
      CutsForMatchOpenings(r, init);
      assert forall k :: 0 <= k < |init| ==> init[k] == os[k];
    }
  }

  /** A single opening gives its cut exactly when it overlaps r. */
  lemma CutsForSingle(r: Rect, o: Opening)
    ensures CutsFor(r, [o]) == if Overlaps(r, o.Bounds()) then [CutFor(r, o)] else []
  {
    assert [o][..0] == [];
  }

  /** The cuts of two lists of openings are their cuts in order, so every
      overlapping opening gives exactly one cut, in opening order. */
  lemma {:induction false} CutsForAppend(r: Rect, os: seq<Opening>, qs: seq<Opening>)
    ensures CutsFor(r, os + qs) == CutsFor(r, os) + CutsFor(r, qs)
    decreases |qs|
  {
    if qs == [] {
      assert os + qs == os;
    } else {
      assert (os + qs)[..|os + qs| - 1] == os + qs[..|qs| - 1];
      CutsForAppend(r, os, qs[..|qs| - 1]);
    }
  }

  function MakePanel(c: Config, r: Rect, os: seq<Opening>): Panel {
    Panel(r.x, r.y, r.width, r.height, c.orientation,
          r.width < c.tileWidth || r.height < c.tileHeight, CutsFor(r, os))
  }

  /** The panel laid in grid cell (row, col), if any: none when the clipped
      cell is empty or some opening hides it entirely. */
  function Cell(c: Config, wallWidth: int, wallHeight: int, os: seq<Opening>, row: int, col: int): seq<Panel> {
    var r := CellRect(c, wallWidth, wallHeight, row, col);
    if r.width > 0 && r.height > 0 && !AnyContains(os, r) then [MakePanel(c, r, os)] else []
  }

  /** Panels of the first n cells of one row, left to right. */
  function RowPanels(c: Config, wallWidth: int, wallHeight: int, os: seq<Opening>, row: int, n: nat): seq<Panel> {
    if n == 0 then []
    else RowPanels(c, wallWidth, wallHeight, os, row, n - 1) + Cell(c, wallWidth, wallHeight, os, row, n - 1)
  }

  /** Panels of the first m rows, bottom to top. */
  function GridPanels(c: Config, wallWidth: int, wallHeight: int, os: seq<Opening>, m: nat, cols: nat): seq<Panel> {
    if m == 0 then []
    else GridPanels(c, wallWidth, wallHeight, os, m - 1, cols) + RowPanels(c, wallWidth, wallHeight, os, m - 1, cols)
  }

  /** All panels of a wall for a valid config, in row-major order. */
  function Tiles(c: Config, wallWidth: int, wallHeight: int, os: seq<Opening>): seq<Panel>
    requires c.rows >= 0 && c.columns >= 0
  {
    GridPanels(c, wallWidth, wallHeight, os, c.rows, c.columns)
  }

  // ---------------------------------------------------------------------
  // Grid indices: which cell each emitted panel came from.

  ghost function RowCells(c: Config, wallWidth: int, wallHeight: int, os: seq<Opening>, row: int, n: nat): seq<(int, int)> {
    if n == 0 then []
    else RowCells(c, wallWidth, wallHeight, os, row, n - 1)
         + (if Cell(c, wallWidth, wallHeight, os, row, n - 1) == [] then [] else [(row, n - 1)])
  }

  ghost function GridCells(c: Config, wallWidth: int, wallHeight: int, os: seq<Opening>, m: nat, cols: nat): seq<(int, int)> {
    if m == 0 then []
    else GridCells(c, wallWidth, wallHeight, os, m - 1, cols) + RowCells(c, wallWidth, wallHeight, os, m - 1, cols)
  }

  /** Row-major order on grid cells. */
  predicate CellBefore(a: (int, int), b: (int, int)) {
    a.0 < b.0 || (a.0 == b.0 && a.1 < b.1)
  }

  lemma {:induction false} RowIndexed(c: Config, wallWidth: int, wallHeight: int, os: seq<Opening>, row: int, n: nat)
    ensures IndexedBy(c, wallWidth, wallHeight, os,
      RowPanels(c, wallWidth, wallHeight, os, row, n), RowCells(c, wallWidth, wallHeight, os, row, n), row, row + 1, n)
  {
    if n > 0 {
      var ps, cs := RowPanels(c, wallWidth, wallHeight, os, row, n - 1), RowCells(c, wallWidth, wallHeight, os, row, n - 1);
      RowIndexed(c, wallWidth, wallHeight, os, row, n - 1);
      var here := Cell(c, wallWidth, wallHeight, os, row, n - 1);
      if here == [] {
        assert RowPanels(c, wallWidth, wallHeight, os, row, n) == ps;
        assert RowCells(c, wallWidth, wallHeight, os, row, n) == cs;
      } else {
        var qs, ds := RowPanels(c, wallWidth, wallHeight, os, row, n), RowCells(c, wallWidth, wallHeight, os, row, n);
        assert qs == ps + here && |here| == 1;
        assert ds == cs + [(row, n - 1)];
        forall i | 0 <= i < |qs|
          ensures row <= ds[i].0 < row + 1 && 0 <= ds[i].1 < n && Cell(c, wallWidth, wallHeight, os, ds[i].0, ds[i].1) == [qs[i]]
        {
          if i < |ps| { assert qs[i] == ps[i] && ds[i] == cs[i]; }
        }
      }
    }
  }

  /** The cells of a row are in that row, left to right. */
  lemma {:induction false} RowOrdered(c: Config, wallWidth: int, wallHeight: int, os: seq<Opening>, row: int, n: nat)
    ensures forall i :: 0 <= i < |RowCells(c, wallWidth, wallHeight, os, row, n)| ==>
      RowCells(c, wallWidth, wallHeight, os, row, n)[i].0 == row &&
      0 <= RowCells(c, wallWidth, wallHeight, os, row, n)[i].1 < n
    ensures forall i, j :: 0 <= i < j < |RowCells(c, wallWidth, wallHeight, os, row, n)| ==>
      RowCells(c, wallWidth, wallHeight, os, row, n)[i].1 < RowCells(c, wallWidth, wallHeight, os, row, n)[j].1
  {
    if n > 0 {
      var cs := RowCells(c, wallWidth, wallHeight, os, row, n - 1);
      var ds := RowCells(c, wallWidth, wallHeight, os, row, n);
      RowOrdered(c, wallWidth, wallHeight, os, row, n - 1);
      if ds != cs {
        assert ds == cs + [(row, n - 1)];
        forall i | 0 <= i < |ds|
          ensures ds[i].0 == row && 0 <= ds[i].1 < n
        {
          if i < |cs| { assert ds[i] == cs[i]; }
        }
        forall i, j | 0 <= i < j < |ds|
          ensures ds[i].1 < ds[j].1
        {
          if j < |cs| { assert ds[i] == cs[i] && ds[j] == cs[j]; }
          else { assert ds[i] == cs[i]; }
        }
      }
    }
  }

  /** Cell cs[i], in rows lo to hi - 1 and columns 0 to cols - 1, is the
      cell that holds panel ps[i]. */
  predicate IndexedBy(c: Config, wallWidth: int, wallHeight: int, os: seq<Opening>,
                      ps: seq<Panel>, cs: seq<(int, int)>, lo: int, hi: int, cols: int) {
    && |cs| == |ps|
    && forall i :: 0 <= i < |ps| ==>
         && lo <= cs[i].0 < hi && 0 <= cs[i].1 < cols
         && Cell(c, wallWidth, wallHeight, os, cs[i].0, cs[i].1) == [ps[i]]
  }

  /** The panels of row m, appended after those of the rows below, stay
      indexed by their cells. */
  lemma AppendIndexed(c: Config, wallWidth: int, wallHeight: int, os: seq<Opening>,
                      ps: seq<Panel>, cs: seq<(int, int)>, qs: seq<Panel>, ds: seq<(int, int)>, m: nat, cols: int)
    requires IndexedBy(c, wallWidth, wallHeight, os, ps, cs, 0, m, cols)
    requires IndexedBy(c, wallWidth, wallHeight, os, qs, ds, m, m + 1, cols)
    ensures IndexedBy(c, wallWidth, wallHeight, os, ps + qs, cs + ds, 0, m + 1, cols)
  {
    var ps2, cs2 := ps + qs, cs + ds;
    forall i | 0 <= i < |ps2|
      ensures 0 <= cs2[i].0 < m + 1 && 0 <= cs2[i].1 < cols
      ensures Cell(c, wallWidth, wallHeight, os, cs2[i].0, cs2[i].1) == [ps2[i]]
    {
      if i < |ps| {
        assert ps2[i] == ps[i] && cs2[i] == cs[i];
      } else {
        assert ps2[i] == qs[i - |ps|] && cs2[i] == ds[i - |cs|];
      }
    }
  }

  lemma {:induction false} GridIndexed(c: Config, wallWidth: int, wallHeight: int, os: seq<Opening>, m: nat, cols: nat)
    ensures IndexedBy(c, wallWidth, wallHeight, os,
      GridPanels(c, wallWidth, wallHeight, os, m, cols), GridCells(c, wallWidth, wallHeight, os, m, cols), 0, m, cols)
  {
    if m > 0 {
      var ps, cs := GridPanels(c, wallWidth, wallHeight, os, m - 1, cols), GridCells(c, wallWidth, wallHeight, os, m - 1, cols);
      var qs, ds := RowPanels(c, wallWidth, wallHeight, os, m - 1, cols), RowCells(c, wallWidth, wallHeight, os, m - 1, cols);
      GridIndexed(c, wallWidth, wallHeight, os, m - 1, cols);
      RowIndexed(c, wallWidth, wallHeight, os, m - 1, cols);
      AppendIndexed(c, wallWidth, wallHeight, os, ps, cs, qs, ds, m - 1, cols);
    }
  }

  /** Every cell lies in one of the first m rows. */
  predicate RowsBelow(cs: seq<(int, int)>, m: int) {
    forall i :: 0 <= i < |cs| ==> 0 <= cs[i].0 < m
  }

  predicate RowMajor(cs: seq<(int, int)>) {
    forall i, j :: 0 <= i < j < |cs| ==> CellBefore(cs[i], cs[j])
  }

  /** Appending the cells of row m, left to right, after cells of the rows
      below keeps the cells in row-major order. */
  lemma AppendRow(cs: seq<(int, int)>, rc: seq<(int, int)>, m: nat)
    requires RowsBelow(cs, m) && RowMajor(cs)
    requires forall i :: 0 <= i < |rc| ==> rc[i].0 == m
    requires forall i, j :: 0 <= i < j < |rc| ==> rc[i].1 < rc[j].1
    ensures RowsBelow(cs + rc, m + 1) && RowMajor(cs + rc)
  {
    var ds := cs + rc;
    forall i | 0 <= i < |ds|
      ensures 0 <= ds[i].0 < m + 1
    {
      if i < |cs| {
        assert ds[i] == cs[i];
      } else {
        assert ds[i] == rc[i - |cs|];
      }
    }
    forall i, j | 0 <= i < j < |ds|
      ensures CellBefore(ds[i], ds[j])
    {
      if j < |cs| {
        assert ds[i] == cs[i] && ds[j] == cs[j];
      } else if i < |cs| {
        assert ds[i] == cs[i] && ds[j] == rc[j - |cs|];
      } else {
        assert ds[i] == rc[i - |cs|] && ds[j] == rc[j - |cs|];
      }
    }
  }

  lemma {:induction false} GridOrdered(c: Config, wallWidth: int, wallHeight: int, os: seq<Opening>, m: nat, cols: nat)
    ensures RowsBelow(GridCells(c, wallWidth, wallHeight, os, m, cols), m)
    ensures RowMajor(GridCells(c, wallWidth, wallHeight, os, m, cols))
  {
    if m > 0 {
      var cs := GridCells(c, wallWidth, wallHeight, os, m - 1, cols);
      var rc := RowCells(c, wallWidth, wallHeight, os, m - 1, cols);
      GridOrdered(c, wallWidth, wallHeight, os, m - 1, cols);
      RowOrdered(c, wallWidth, wallHeight, os, m - 1, cols);
      AppendRow(cs, rc, m - 1);
    }
  }

  // ---------------------------------------------------------------------
  // Arithmetic on grid coordinates.

  lemma MulStep(a: int, b: int, t: int)
    requires a < b && t > 0
    ensures a * t + t <= b * t
  {
    var d := b - a - 1;
    assert d >= 0;
    assert b * t == a * t + t + d * t;
  }

  lemma MulNonNeg(a: int, t: int)
    requires a >= 0 && t > 0
    ensures a * t >= 0
  {
  }

  /** The grid index of coordinate v for tiles of size t, when the n
      tiles cover [0, bound). */
  lemma GridIndexOf(v: int, t: int, bound: int, n: int) returns (k: int)
    requires t > 0 && 0 <= v < bound && n == CeilDiv(bound, t)
    ensures 0 <= k < n && k * t <= v < k * t + t
  {
    k := v / t;
    assert v == k * t + v % t;
    if k < 0 { MulStep(k, 0, t); }
    if k > n { MulStep(n, k, t); }
  }

  // ---------------------------------------------------------------------
  // Facts about one emitted panel.

  /** What the source promises of every emitted panel: its size never
      exceeds the tile, it lies inside the wall, it is trimmed only where
      it meets the wall's right or top edge, it carries the trim flag
      exactly when it was clipped, no single opening hides it, and its cuts
      are those of the openings it overlaps. */
  ghost predicate WellPlaced(p: Panel, c: Config, wallWidth: int, wallHeight: int, os: seq<Opening>) {
    && 0 < p.width <= c.tileWidth
    && 0 < p.height <= c.tileHeight
    && Contains(WallBounds(wallWidth, wallHeight), p.Bounds())
    && (p.width < c.tileWidth ==> p.x + p.width == wallWidth)
    && (p.height < c.tileHeight ==> p.y + p.height == wallHeight)
    && p.orientation == c.orientation
    && (p.needsTrim <==> p.width < c.tileWidth || p.height < c.tileHeight)
    && (forall k :: 0 <= k < |os| ==> !Contains(os[k].Bounds(), p.Bounds()))
    && p.cuts == CutsFor(p.Bounds(), os)
  }

  lemma CellPanel(c: Config, wallWidth: int, wallHeight: int, os: seq<Opening>, row: int, col: int, p: Panel)
    requires c.tileWidth > 0 && c.tileHeight > 0 && row >= 0 && col >= 0
    requires Cell(c, wallWidth, wallHeight, os, row, col) == [p]
    ensures p.x == col * c.tileWidth && p.y == row * c.tileHeight
    ensures p.Bounds() == CellRect(c, wallWidth, wallHeight, row, col)
    ensures WellPlaced(p, c, wallWidth, wallHeight, os)
  {
    MulNonNeg(col, c.tileWidth);
    MulNonNeg(row, c.tileHeight);
  }

  /** Every clipped cell of a valid config is non-empty, so the engine's
      test for a positive size never drops a cell. */
  lemma CellNonEmpty(c: Config, wallWidth: int, wallHeight: int, row: int, col: int)
    requires ValidConfig(c, wallWidth, wallHeight)
    requires 0 <= row < c.rows && 0 <= col < c.columns
    ensures NonEmpty(CellRect(c, wallWidth, wallHeight, row, col))
  {
    BelowCeil(col, c.columns, c.tileWidth, wallWidth);
    BelowCeil(row, c.rows, c.tileHeight, wallHeight);
  }

  /** Every tile index below the tile count of a ceiling division starts
      inside the length divided. */
  lemma BelowCeil(i: int, n: int, t: int, a: int)
    requires 0 <= i < n && t > 0 && n * t - t < a
    ensures i * t < a
  {
    if i < n - 1 { MulStep(i, n - 1, t); }
    assert (n - 1) * t == n * t - t;
  }

  lemma {:induction false} RowComplete(c: Config, wallWidth: int, wallHeight: int, os: seq<Opening>, row: int, n: nat, col: int, p: Panel)
    requires 0 <= col < n
    requires Cell(c, wallWidth, wallHeight, os, row, col) == [p]
    ensures p in RowPanels(c, wallWidth, wallHeight, os, row, n)
  {
    if col < n - 1 {
      RowComplete(c, wallWidth, wallHeight, os, row, n - 1, col, p);
    }
  }

  lemma {:induction false} GridComplete(c: Config, wallWidth: int, wallHeight: int, os: seq<Opening>, m: nat, cols: nat, row: int, col: int, p: Panel)
    requires 0 <= row < m && 0 <= col < cols
    requires Cell(c, wallWidth, wallHeight, os, row, col) == [p]
    ensures p in GridPanels(c, wallWidth, wallHeight, os, m, cols)
  {
    if row < m - 1 {
      GridComplete(c, wallWidth, wallHeight, os, m - 1, cols, row, col, p);
    } else {
      RowComplete(c, wallWidth, wallHeight, os, row, cols, col, p);
    }
  }

  // ---------------------------------------------------------------------
  // Properties of the whole grid.

  /** Every emitted panel is well placed. */
  lemma TilesWellPlaced(c: Config, wallWidth: int, wallHeight: int, os: seq<Opening>)
    requires ValidConfig(c, wallWidth, wallHeight)
    ensures forall p :: p in Tiles(c, wallWidth, wallHeight, os) ==> WellPlaced(p, c, wallWidth, wallHeight, os)
  {
    var ps := Tiles(c, wallWidth, wallHeight, os);
    var cells := GridCells(c, wallWidth, wallHeight, os, c.rows, c.columns);
    GridIndexed(c, wallWidth, wallHeight, os, c.rows, c.columns);
    GridOrdered(c, wallWidth, wallHeight, os, c.rows, c.columns);
    forall i | 0 <= i < |ps|
      ensures WellPlaced(ps[i], c, wallWidth, wallHeight, os)
    {
      CellPanel(c, wallWidth, wallHeight, os, cells[i].0, cells[i].1, ps[i]);
    }
  }

  /** Panels come out bottom row first and left to right within a row. */
  lemma TilesRowMajor(c: Config, wallWidth: int, wallHeight: int, os: seq<Opening>)
    requires ValidConfig(c, wallWidth, wallHeight)
    ensures forall i, j :: 0 <= i < j < |Tiles(c, wallWidth, wallHeight, os)| ==>
      var a, b := Tiles(c, wallWidth, wallHeight, os)[i], Tiles(c, wallWidth, wallHeight, os)[j];
      a.y < b.y || (a.y == b.y && a.x < b.x)
  {
    var ps := Tiles(c, wallWidth, wallHeight, os);
    var cells := GridCells(c, wallWidth, wallHeight, os, c.rows, c.columns);
    GridIndexed(c, wallWidth, wallHeight, os, c.rows, c.columns);
    GridOrdered(c, wallWidth, wallHeight, os, c.rows, c.columns);
    forall i, j | 0 <= i < j < |ps|
      ensures ps[i].y < ps[j].y || (ps[i].y == ps[j].y && ps[i].x < ps[j].x)
    {
      CellPanel(c, wallWidth, wallHeight, os, cells[i].0, cells[i].1, ps[i]);
      CellPanel(c, wallWidth, wallHeight, os, cells[j].0, cells[j].1, ps[j]);
      if cells[i].0 < cells[j].0 {
        MulStep(cells[i].0, cells[j].0, c.tileHeight);
      } else {
        MulStep(cells[i].1, cells[j].1, c.tileWidth);
      }
    }
  }

  /** Two panels of the same wall never overlap. */
  lemma TilesDisjoint(c: Config, wallWidth: int, wallHeight: int, os: seq<Opening>)
    requires ValidConfig(c, wallWidth, wallHeight)
    ensures forall i, j :: 0 <= i < |Tiles(c, wallWidth, wallHeight, os)| && 0 <= j < |Tiles(c, wallWidth, wallHeight, os)| && i != j ==>
      !Overlaps(Tiles(c, wallWidth, wallHeight, os)[i].Bounds(), Tiles(c, wallWidth, wallHeight, os)[j].Bounds())
  {
    var ps := Tiles(c, wallWidth, wallHeight, os);
    var cells := GridCells(c, wallWidth, wallHeight, os, c.rows, c.columns);
    GridIndexed(c, wallWidth, wallHeight, os, c.rows, c.columns);
    GridOrdered(c, wallWidth, wallHeight, os, c.rows, c.columns);
    forall i, j | 0 <= i < j < |ps|
      ensures !Overlaps(ps[i].Bounds(), ps[j].Bounds()) && !Overlaps(ps[j].Bounds(), ps[i].Bounds())
    {
      CellPanel(c, wallWidth, wallHeight, os, cells[i].0, cells[i].1, ps[i]);
      CellPanel(c, wallWidth, wallHeight, os, cells[j].0, cells[j].1, ps[j]);
      if cells[i].0 < cells[j].0 {
        MulStep(cells[i].0, cells[j].0, c.tileHeight);
      } else {
        MulStep(cells[i].1, cells[j].1, c.tileWidth);
      }
    }
  }

  /** A grid cell has no panel exactly when some single opening contains
      its clipped rectangle. */
  lemma CellOmittedIffHidden(c: Config, wallWidth: int, wallHeight: int, os: seq<Opening>, row: int, col: int)
    requires ValidConfig(c, wallWidth, wallHeight)
    requires 0 <= row < c.rows && 0 <= col < c.columns
    ensures (exists i :: 0 <= i < |Tiles(c, wallWidth, wallHeight, os)| &&
              Tiles(c, wallWidth, wallHeight, os)[i].x == col * c.tileWidth &&
              Tiles(c, wallWidth, wallHeight, os)[i].y == row * c.tileHeight)
            <==> !AnyContains(os, CellRect(c, wallWidth, wallHeight, row, col))
  {
    var ps := Tiles(c, wallWidth, wallHeight, os);
    var cells := GridCells(c, wallWidth, wallHeight, os, c.rows, c.columns);
    GridIndexed(c, wallWidth, wallHeight, os, c.rows, c.columns);
    GridOrdered(c, wallWidth, wallHeight, os, c.rows, c.columns);
    CellNonEmpty(c, wallWidth, wallHeight, row, col);
    if i :| 0 <= i < |ps| && ps[i].x == col * c.tileWidth && ps[i].y == row * c.tileHeight {
      CellPanel(c, wallWidth, wallHeight, os, cells[i].0, cells[i].1, ps[i]);
      if cells[i].0 < row { MulStep(cells[i].0, row, c.tileHeight); }
      if cells[i].0 > row { MulStep(row, cells[i].0, c.tileHeight); }
      if cells[i].1 < col { MulStep(cells[i].1, col, c.tileWidth); }
      if cells[i].1 > col { MulStep(col, cells[i].1, c.tileWidth); }
      assert cells[i] == (row, col);
    }
    if !AnyContains(os, CellRect(c, wallWidth, wallHeight, row, col)) {
      var p := MakePanel(c, CellRect(c, wallWidth, wallHeight, row, col), os);
      GridComplete(c, wallWidth, wallHeight, os, c.rows, c.columns, row, col, p);
      var i :| 0 <= i < |ps| && ps[i] == p;
    }
  }

  /** Every unit square of the wall that no opening covers lies in some
      emitted panel: the tiling leaves no gaps. */
  lemma TilesCoverVisibleWall(c: Config, wallWidth: int, wallHeight: int, os: seq<Opening>, px: int, py: int)
    requires ValidConfig(c, wallWidth, wallHeight)
    requires HasPoint(WallBounds(wallWidth, wallHeight), px, py)
    requires forall k :: 0 <= k < |os| ==> !HasPoint(os[k].Bounds(), px, py)
    ensures exists i :: 0 <= i < |Tiles(c, wallWidth, wallHeight, os)| && HasPoint(Tiles(c, wallWidth, wallHeight, os)[i].Bounds(), px, py)
  {
    var ps := Tiles(c, wallWidth, wallHeight, os);
    var col := GridIndexOf(px, c.tileWidth, wallWidth, c.columns);
    var row := GridIndexOf(py, c.tileHeight, wallHeight, c.rows);
    var r := CellRect(c, wallWidth, wallHeight, row, col);
    assert HasPoint(r, px, py);
    forall k | 0 <= k < |os|
      ensures !Contains(os[k].Bounds(), r)
    {
      if Contains(os[k].Bounds(), r) {
        ContainsPoint(os[k].Bounds(), r, px, py);
      }
    }
    var p := MakePanel(c, r, os);
    GridComplete(c, wallWidth, wallHeight, os, c.rows, c.columns, row, col, p);
    var i :| 0 <= i < |ps| && ps[i] == p;
    assert HasPoint(ps[i].Bounds(), px, py);
  }
}
