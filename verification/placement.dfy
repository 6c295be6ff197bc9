/** Panel placement on one wall, as the engine runs it: pick the
    orientation, walk the grid row by row, drop hidden cells, record cuts,
    and collect the reusable offcuts of trimmed panels. */
module Placement {
  import opened Geometry
  import opened Project
  import opened Offcuts
  import opened Tiling

  /** What the engine returns for one wall. */
  datatype WallResult = WallResult(
    panels: seq<Panel>,
    panelCount: int,
    usefulArea: int,
    orientation: Orientation,
    offcuts: seq<Offcut>)

  /** Offcut strips of the trimmed panels of ps, panel by panel. */
  function OffcutsOf(ps: seq<Panel>, fullWidth: int, fullHeight: int): seq<Offcut> {
    if ps == [] then []
    else
      var last := ps[|ps| - 1];
      OffcutsOf(ps[..|ps| - 1], fullWidth, fullHeight)
      + (if last.needsTrim then StripsOf(last.Bounds(), fullWidth, fullHeight) else [])
  }

  /** The result for one wall once the tiling c is chosen: the panels of
      its grid, the panel count, the useful area, and the reusable offcuts
      sorted by decreasing surface. */
  function PlacementWith(c: Config, wallWidth: int, wallHeight: int, panelWidth: int, panelHeight: int, os: seq<Opening>): WallResult
    requires c.rows >= 0 && c.columns >= 0 && panelWidth > 0 && panelHeight > 0
  {
    var ps := Tiles(c, wallWidth, wallHeight, os);
    var useful := wallWidth * wallHeight - OpeningsArea(os);
    WallResult(
      ps,
      Max(|ps|, CeilDiv(useful, panelWidth * panelHeight)),
      useful,
      c.orientation,
      SortBySurface(KeepReusable(OffcutsOf(ps, c.tileWidth, c.tileHeight))))
  }

  /** The result the engine computes for one wall. */
  function WallPlacement(wallWidth: int, wallHeight: int, panelWidth: int, panelHeight: int, os: seq<Opening>): WallResult
    requires wallWidth > 0 && wallHeight > 0 && panelWidth > 0 && panelHeight > 0
  {
    PlacementWith(BestConfig(wallWidth, wallHeight, panelWidth, panelHeight), wallWidth, wallHeight, panelWidth, panelHeight, os)
  }

  /** The orientation loop: evaluates the panel as given, then turned,
      and keeps a candidate only when its score is strictly below the best
      so far. */
  method ChooseOrientation(wallWidth: int, wallHeight: int, panelWidth: int, panelHeight: int) returns (best: Config)
    requires wallWidth > 0 && wallHeight > 0 && panelWidth > 0 && panelHeight > 0
    ensures best == BestConfig(wallWidth, wallHeight, panelWidth, panelHeight)
  {
    var candidates := [
      Candidate(Normal, wallWidth, wallHeight, panelWidth, panelHeight),
      Candidate(Rotated, wallWidth, wallHeight, panelWidth, panelHeight)
    ];
    ghost var normalScore := Score(candidates[0], wallWidth, wallHeight);
    var bestConfig: Option<Config> := None;
    var bestScore: Option<int> := None;  // no score yet: +infinity
    var i := 0;
    while i < |candidates|
      invariant 0 <= i <= |candidates|
      invariant i == 0 ==> bestConfig == None && bestScore == None
      invariant i == 1 ==> bestConfig == Some(candidates[0]) && bestScore == Some(normalScore)
      invariant i == 2 ==> bestConfig == Some(BestConfig(wallWidth, wallHeight, panelWidth, panelHeight))
    {
      var score := Score(candidates[i], wallWidth, wallHeight);
      if bestScore.None? || score < bestScore.value {
        bestScore := Some(score);
        bestConfig := Some(candidates[i]);
      }
      i := i + 1;
    }
    best := bestConfig.value;
  }

  /** The cut loop: one cut per overlapping opening, in opening order. */
  method ComputeCuts(r: Rect, os: seq<Opening>) returns (cuts: seq<Cut>)
    ensures cuts == CutsFor(r, os)
  {
    cuts := [];
    var i := 0;
    while i < |os|
      invariant 0 <= i <= |os|
      invariant cuts == CutsFor(r, os[..i])
    {
      var o := os[i];
      if Overlaps(r, o.Bounds()) {
        cuts := cuts + [CutFor(r, o)];
      }
      assert os[..i + 1][..i] == os[..i] && os[..i + 1][i] == o;
      i := i + 1;
    }
    assert os[..|os|] == os;
  }

  /** One grid cell: the cell clipped to the wall becomes a panel unless
      its size is empty or a single opening hides it entirely; the panel
      carries the trim flag and the cuts of the openings it overlaps. */
  method LayCell(c: Config, wallWidth: int, wallHeight: int, os: seq<Opening>, row: int, col: int)
    returns (cell: seq<Panel>)
    ensures cell == Cell(c, wallWidth, wallHeight, os, row, col)
  {
    var xPos := col * c.tileWidth;
    var yPos := row * c.tileHeight;
    var w := Min(c.tileWidth, wallWidth - xPos);
    var h := Min(c.tileHeight, wallHeight - yPos);
    cell := [];
    if w > 0 && h > 0 {
      var r := Rect(xPos, yPos, w, h);
      if !AnyContains(os, r) {
        var cuts := ComputeCuts(r, os);
        cell := [Panel(xPos, yPos, w, h, c.orientation, w < c.tileWidth || h < c.tileHeight, cuts)];
      }
    }
  }

  /** The inner grid loop over row y, left to right: each panel laid is
      appended to panels, and a trimmed one adds its strips to offcuts. */
  method LayRow(c: Config, wallWidth: int, wallHeight: int, os: seq<Opening>, y: int,
                panels0: seq<Panel>, offcuts0: seq<Offcut>)
    returns (panels: seq<Panel>, offcuts: seq<Offcut>)
    requires c.columns >= 0
    requires offcuts0 == OffcutsOf(panels0, c.tileWidth, c.tileHeight)
    ensures panels == panels0 + RowPanels(c, wallWidth, wallHeight, os, y, c.columns)
    ensures offcuts == OffcutsOf(panels, c.tileWidth, c.tileHeight)
  {
    panels, offcuts := panels0, offcuts0;
    var x := 0;
    assert panels0 + RowPanels(c, wallWidth, wallHeight, os, y, 0) == panels;
    while x < c.columns
      invariant 0 <= x <= c.columns
      invariant panels == panels0 + RowPanels(c, wallWidth, wallHeight, os, y, x)
      invariant offcuts == OffcutsOf(panels, c.tileWidth, c.tileHeight)
    {
      var cell := LayCell(c, wallWidth, wallHeight, os, y, x);
      ghost var row := RowPanels(c, wallWidth, wallHeight, os, y, x);
      assert RowPanels(c, wallWidth, wallHeight, os, y, x + 1) == row + cell;
      if cell != [] {
        var p := cell[0];
        assert cell == [p];
        AppendAssoc(panels0, row, cell);
        OffcutsOfSnoc(panels, p, c.tileWidth, c.tileHeight);
        panels := panels + [p];
        if p.needsTrim {
          offcuts := offcuts + StripsOf(p.Bounds(), c.tileWidth, c.tileHeight);
        }
      } else {
        assert row + cell == row;
      }
      x := x + 1;
    }
  }

  lemma AppendAssoc<T>(a: seq<T>, b: seq<T>, c: seq<T>)
    ensures (a + b) + c == a + (b + c)
  {
  }

  /** The outer grid loop: the rows bottom to top. */
  method LayPanels(c: Config, wallWidth: int, wallHeight: int, os: seq<Opening>)
    returns (panels: seq<Panel>, offcuts: seq<Offcut>)
    requires c.rows >= 0 && c.columns >= 0
    ensures panels == Tiles(c, wallWidth, wallHeight, os)
    ensures offcuts == OffcutsOf(panels, c.tileWidth, c.tileHeight)
  {
    panels, offcuts := [], [];
    var y := 0;
    while y < c.rows
      invariant 0 <= y <= c.rows
      invariant panels == GridPanels(c, wallWidth, wallHeight, os, y, c.columns)
      invariant offcuts == OffcutsOf(panels, c.tileWidth, c.tileHeight)
    {
      panels, offcuts := LayRow(c, wallWidth, wallHeight, os, y, panels, offcuts);
      y := y + 1;
    }
  }

  /** The placement of one wall. */
  method OptimizePlacement(wallWidth: int, wallHeight: int, panelWidth: int, panelHeight: int, os: seq<Opening>)
    returns (res: WallResult)
    requires wallWidth > 0 && wallHeight > 0 && panelWidth > 0 && panelHeight > 0
    ensures res == WallPlacement(wallWidth, wallHeight, panelWidth, panelHeight, os)
  {
    var wallArea := wallWidth * wallHeight;
    var useful := wallArea - OpeningsArea(os);
    var c := ChooseOrientation(wallWidth, wallHeight, panelWidth, panelHeight);
    var panels, offcuts := LayPanels(c, wallWidth, wallHeight, os);
    var kept := SortBySurface(KeepReusable(offcuts));
    var panelArea := panelWidth * panelHeight;
    MulStep(0, panelWidth, panelHeight);
    var count := Max(|panels|, CeilDiv(useful, panelArea));
    res := WallResult(panels, count, useful, c.orientation, kept);
    assert res == PlacementWith(c, wallWidth, wallHeight, panelWidth, panelHeight, os);
  }

  // ---------------------------------------------------------------------
  // Properties of one wall's result.

  lemma OffcutsOfSnoc(ps: seq<Panel>, p: Panel, fullWidth: int, fullHeight: int)
    ensures OffcutsOf(ps + [p], fullWidth, fullHeight)
         == OffcutsOf(ps, fullWidth, fullHeight) + (if p.needsTrim then StripsOf(p.Bounds(), fullWidth, fullHeight) else [])
  {
    assert (ps + [p])[..|ps|] == ps;
  }

  lemma {:induction false} OffcutsOfAppend(ps: seq<Panel>, qs: seq<Panel>, fullWidth: int, fullHeight: int)
    ensures OffcutsOf(ps + qs, fullWidth, fullHeight) == OffcutsOf(ps, fullWidth, fullHeight) + OffcutsOf(qs, fullWidth, fullHeight)
    decreases |qs|
  {
    if qs == [] {
      assert ps + qs == ps;
    } else {
      assert (ps + qs)[..|ps + qs| - 1] == ps + qs[..|qs| - 1];
      OffcutsOfAppend(ps, qs[..|qs| - 1], fullWidth, fullHeight);
    }
  }

  /** Every offcut of a well-placed trimmed panel has positive sides, a
      surface equal to its area, and lies beyond the wall's right or top
      edge, inside the full panel it was trimmed from. */
  lemma {:induction false} OffcutsOfWellPlaced(ps: seq<Panel>, c: Config, wallWidth: int, wallHeight: int, os: seq<Opening>)
    requires forall p :: p in ps ==> WellPlaced(p, c, wallWidth, wallHeight, os)
    ensures forall o :: o in OffcutsOf(ps, c.tileWidth, c.tileHeight) ==>
      && NonEmpty(o.Bounds())
      && o.surface == o.width * o.height
      && !Overlaps(WallBounds(wallWidth, wallHeight), o.Bounds())
      && exists p :: p in ps && p.needsTrim && Contains(Rect(p.x, p.y, c.tileWidth, c.tileHeight), o.Bounds())
  {
    if ps != [] {
      var init, last := ps[..|ps| - 1], ps[|ps| - 1];
      assert last in ps;
      assert forall p :: p in init ==> p in ps;
      OffcutsOfWellPlaced(init, c, wallWidth, wallHeight, os);
      if last.needsTrim {
        var strips := StripsOf(last.Bounds(), c.tileWidth, c.tileHeight);
        assert Trimmed(last.Bounds(), c.tileWidth, c.tileHeight);
        StripsOfShape(last.Bounds(), c.tileWidth, c.tileHeight);
        forall o | o in strips
          ensures !Overlaps(WallBounds(wallWidth, wallHeight), o.Bounds())
        {
          assert o == LateralStrip(last.Bounds(), c.tileWidth)
              || o == TopStrip(last.Bounds(), c.tileHeight)
              || o == CornerStrip(last.Bounds(), c.tileWidth, c.tileHeight);
        }
      }
    }
  }

  /** The panel count is at least the number of panels laid, and enough
      standard panels to cover the useful area. */
  lemma PanelCountBounds(wallWidth: int, wallHeight: int, panelWidth: int, panelHeight: int, os: seq<Opening>)
    requires wallWidth > 0 && wallHeight > 0 && panelWidth > 0 && panelHeight > 0
    ensures var r := WallPlacement(wallWidth, wallHeight, panelWidth, panelHeight, os);
      && r.usefulArea == wallWidth * wallHeight - OpeningsArea(os)
      && r.panelCount >= |r.panels|
      && r.panelCount >= 0
      && r.panelCount * (panelWidth * panelHeight) >= r.usefulArea
  {
    var r := WallPlacement(wallWidth, wallHeight, panelWidth, panelHeight, os);
    MaxCovers(|r.panels|, r.usefulArea, panelWidth * panelHeight);
  }

  /** Taking the larger of n and the number of a-sized panels that cover u
      still covers u. */
  lemma MaxCovers(n: int, u: int, a: int)
    requires a > 0
    ensures Max(n, CeilDiv(u, a)) * a >= u
  {
    var q := CeilDiv(u, a);
    if n > q {
      MulStep(q, n, a);
    }
  }

  /** The panels laid on one wall are well placed, pairwise disjoint, in
      row-major order, and cover every unit square of the wall that no
      opening covers. */
  lemma PanelsTileWall(wallWidth: int, wallHeight: int, panelWidth: int, panelHeight: int, os: seq<Opening>)
    requires wallWidth > 0 && wallHeight > 0 && panelWidth > 0 && panelHeight > 0
    ensures var c := BestConfig(wallWidth, wallHeight, panelWidth, panelHeight);
      var ps := WallPlacement(wallWidth, wallHeight, panelWidth, panelHeight, os).panels;
      && (forall p :: p in ps ==> WellPlaced(p, c, wallWidth, wallHeight, os))
      && (forall i, j :: 0 <= i < |ps| && 0 <= j < |ps| && i != j ==> !Overlaps(ps[i].Bounds(), ps[j].Bounds()))
      && (forall i, j :: 0 <= i < j < |ps| ==> ps[i].y < ps[j].y || (ps[i].y == ps[j].y && ps[i].x < ps[j].x))
      && (forall px, py ::
            HasPoint(WallBounds(wallWidth, wallHeight), px, py) &&
            (forall k :: 0 <= k < |os| ==> !HasPoint(os[k].Bounds(), px, py))
            ==> exists i :: 0 <= i < |ps| && HasPoint(ps[i].Bounds(), px, py))
  {
    var c := BestConfig(wallWidth, wallHeight, panelWidth, panelHeight);
    TilesWellPlaced(c, wallWidth, wallHeight, os);
    TilesDisjoint(c, wallWidth, wallHeight, os);
    TilesRowMajor(c, wallWidth, wallHeight, os);
    forall px, py |
      HasPoint(WallBounds(wallWidth, wallHeight), px, py) &&
      (forall k :: 0 <= k < |os| ==> !HasPoint(os[k].Bounds(), px, py))
      ensures exists i :: 0 <= i < |Tiles(c, wallWidth, wallHeight, os)| && HasPoint(Tiles(c, wallWidth, wallHeight, os)[i].Bounds(), px, py)
    {
      TilesCoverVisibleWall(c, wallWidth, wallHeight, os, px, py);
    }
  }

  /** The reported offcuts are the reusable strips of the trimmed panels,
      sorted by decreasing surface, each with positive sides and lying
      beyond the wall. */
  lemma ReportedOffcuts(wallWidth: int, wallHeight: int, panelWidth: int, panelHeight: int, os: seq<Opening>)
    requires wallWidth > 0 && wallHeight > 0 && panelWidth > 0 && panelHeight > 0
    ensures var c := BestConfig(wallWidth, wallHeight, panelWidth, panelHeight);
      var r := WallPlacement(wallWidth, wallHeight, panelWidth, panelHeight, os);
      && SortedBySurface(r.offcuts)
      && (forall o :: o in r.offcuts <==> o in OffcutsOf(r.panels, c.tileWidth, c.tileHeight) && o.surface >= MinReusableSurface)
      && (forall o :: o in r.offcuts ==>
            && NonEmpty(o.Bounds())
            && o.surface == o.width * o.height
            && !Overlaps(WallBounds(wallWidth, wallHeight), o.Bounds()))
  {
    var c := BestConfig(wallWidth, wallHeight, panelWidth, panelHeight);
    var r := WallPlacement(wallWidth, wallHeight, panelWidth, panelHeight, os);
    TilesWellPlaced(c, wallWidth, wallHeight, os);
    OffcutsOfWellPlaced(r.panels, c, wallWidth, wallHeight, os);
    var all := OffcutsOf(r.panels, c.tileWidth, c.tileHeight);
    var keep := KeepReusable(all);
    KeepReusableSelects(all);
    assert r.offcuts == SortBySurface(keep);
    SortBySurfaceSorted(keep);
    forall o
      ensures o in r.offcuts <==> o in keep
    {
      assert o in r.offcuts <==> o in multiset(r.offcuts);
      assert o in keep <==> o in multiset(keep);
    }
  }

  // ---------------------------------------------------------------------
  // The default project's walls.

  /** A 188 x 238 wall without openings and a 120 x 250 panel: both
      orientations need two panels and overhang the wall by 15256 cm², so
      the scores tie and the panel keeps its given orientation. */
  lemma SmallWallScoresTie()
    ensures var n := Candidate(Normal, 188, 238, 120, 250);
      var t := Candidate(Rotated, 188, 238, 120, 250);
      && n.columns * n.rows == 2 && t.columns * t.rows == 2
      && Score(n, 188, 238) == Score(t, 188, 238) == 2 * PanelCountWeight + 15256
    ensures BestConfig(188, 238, 120, 250) == SmallConfig
  {
    assert CeilDiv(188, 120) == 2 && CeilDiv(238, 250) == 1;
    assert CeilDiv(188, 250) == 1 && CeilDiv(238, 120) == 2;
  }

  /** The two panels of that wall: a full-width one and a 68 cm one at the
      right edge, both cut down to the wall's 238 cm height. */
  const SmallLeftPanel := Panel(0, 0, 120, 238, Normal, true, [])
  const SmallRightPanel := Panel(120, 0, 68, 238, Normal, true, [])

  const SmallConfig := Config(Normal, 120, 250, 2, 1)

  lemma SmallWallPanels(os: seq<Opening>)
    requires |os| == 0
    ensures Tiles(SmallConfig, 188, 238, os) == [SmallLeftPanel, SmallRightPanel]
  {
    assert CellRect(SmallConfig, 188, 238, 0, 0) == Rect(0, 0, 120, 238);
    assert CellRect(SmallConfig, 188, 238, 0, 1) == Rect(120, 0, 68, 238);
    SingleRowOfTwo(SmallConfig, 188, 238, os, SmallLeftPanel, SmallRightPanel);
  }

  /** A one-row, two-column grid whose two cells each hold one panel yields
      exactly those panels, left to right. */
  lemma SingleRowOfTwo(c: Config, wallWidth: int, wallHeight: int, os: seq<Opening>, a: Panel, b: Panel)
    requires c.rows == 1 && c.columns == 2
    requires Cell(c, wallWidth, wallHeight, os, 0, 0) == [a]
    requires Cell(c, wallWidth, wallHeight, os, 0, 1) == [b]
    ensures Tiles(c, wallWidth, wallHeight, os) == [a, b]
  {
    assert RowPanels(c, wallWidth, wallHeight, os, 0, 1) == [a];
    assert GridPanels(c, wallWidth, wallHeight, os, 1, 2) == RowPanels(c, wallWidth, wallHeight, os, 0, 2);
  }

  /** The strips of two panels, in panel order. */
  lemma OffcutsOfPair(ps: seq<Panel>, fullWidth: int, fullHeight: int)
    requires |ps| == 2
    ensures OffcutsOf(ps, fullWidth, fullHeight)
         == (if ps[0].needsTrim then StripsOf(ps[0].Bounds(), fullWidth, fullHeight) else [])
          + (if ps[1].needsTrim then StripsOf(ps[1].Bounds(), fullWidth, fullHeight) else [])
  {
    OffcutsOfSnoc([], ps[0], fullWidth, fullHeight);
    OffcutsOfSnoc([ps[0]], ps[1], fullWidth, fullHeight);
    assert [] + [ps[0]] == [ps[0]] && [ps[0]] + [ps[1]] == ps;
  }

  /** Of four strips, only the second reaches the reusable surface. */
  lemma KeepOnlySecond(s: seq<Offcut>)
    requires |s| == 4 && s[1].surface >= MinReusableSurface
    requires s[0].surface < MinReusableSurface && s[2].surface < MinReusableSurface && s[3].surface < MinReusableSurface
    ensures KeepReusable(s) == [s[1]]
  {
    var a, b, c := s[..1], s[..2], s[..3];
    assert KeepReusable(a) == [] by { assert a[..0] == []; }
    assert KeepReusable(b) == [s[1]] by { assert b[..1] == a; }
    assert KeepReusable(c) == [s[1]] by { assert c[..2] == b; }
  }

  lemma SmallLeftStrips()
    ensures StripsOf(SmallLeftPanel.Bounds(), 120, 250) == [Offcut(0, 238, 120, 12, 1440)]
  {
  }

  lemma SmallRightStrips()
    ensures StripsOf(SmallRightPanel.Bounds(), 120, 250)
         == [Offcut(188, 0, 52, 238, 12376), Offcut(120, 238, 68, 12, 816), Offcut(188, 238, 52, 12, 624)]
  {
  }

  /** Those two panels leave four strips: one above the first panel, and a
      side strip, a top strip and a corner piece around the second. */
  lemma SmallWallOffcuts(ps: seq<Panel>)
    requires |ps| == 2 && ps[0] == SmallLeftPanel && ps[1] == SmallRightPanel
    ensures OffcutsOf(ps, 120, 250)
         == [Offcut(0, 238, 120, 12, 1440)]
          + [Offcut(188, 0, 52, 238, 12376), Offcut(120, 238, 68, 12, 816), Offcut(188, 238, 52, 12, 624)]
  {
    SmallLeftStrips();
    SmallRightStrips();
    OffcutsOfPair(ps, 120, 250);
  }

  /** Of those four strips only the 52 x 238 one is kept. */
  lemma SmallWallKept(s: seq<Offcut>)
    requires s == [Offcut(0, 238, 120, 12, 1440)]
          + [Offcut(188, 0, 52, 238, 12376), Offcut(120, 238, 68, 12, 816), Offcut(188, 238, 52, 12, 624)]
    ensures SortBySurface(KeepReusable(s)) == [Offcut(188, 0, 52, 238, 12376)]
  {
    KeepOnlySecond(s);
    SortSingle(KeepReusable(s));
  }

  lemma SortSingle(s: seq<Offcut>)
    requires |s| == 1
    ensures SortBySurface(s) == s
  {
    assert s[1..] == [];
  }

  /** The whole result for that wall: given orientation, two panels, and
      only the 52 x 238 strip right of the wall kept as reusable; two
      panels also cover the useful area. */
  lemma SmallWallResult(os: seq<Opening>)
    requires |os| == 0
    ensures var r := WallPlacement(188, 238, 120, 250, os);
      && r.orientation == Normal
      && r.panels == [SmallLeftPanel, SmallRightPanel]
      && r.panelCount == 2
      && r.offcuts == [Offcut(188, 0, 52, 238, 12376)]
  {
    var ps := Tiles(SmallConfig, 188, 238, os);
    SmallWallScoresTie();
    SmallWallPanels(os);
    SmallWallOffcuts(ps);
    SmallWallKept(OffcutsOf(ps, 120, 250));
    assert CeilDiv(44744, 30000) == 2;
  }

  const Door := Opening(101, 50, 0, 90, 210, "porte", None, None, None, None, None)
  const Window := Opening(102, 180, 50, 100, 100, "fenêtre", None, None, None, None, None)

  /** The openings of the first default wall: a door, then a window. */
  predicate DefaultOpenings(os: seq<Opening>) {
    |os| == 2 && os[0] == Door && os[1] == Window
  }

  /** On a 300 x 250 wall the panel as given needs three panels against
      six turned, so it keeps its orientation. */
  lemma DefaultWallConfig()
    ensures Score(Candidate(Normal, 300, 250, 120, 250), 300, 250) == 3 * PanelCountWeight + 15000
    ensures Score(Candidate(Rotated, 300, 250, 120, 250), 300, 250) == 6 * PanelCountWeight + 105000
    ensures BestConfig(300, 250, 120, 250) == DefaultConfig
  {
    assert CeilDiv(300, 120) == 3 && CeilDiv(250, 250) == 1;
    assert CeilDiv(300, 250) == 2 && CeilDiv(250, 120) == 3;
  }

  lemma CutsForPair(r: Rect, a: Opening, b: Opening)
    ensures CutsFor(r, [a, b])
         == (if Overlaps(r, a.Bounds()) then [CutFor(r, a)] else [])
          + (if Overlaps(r, b.Bounds()) then [CutFor(r, b)] else [])
  {
    assert [a, b][..1] == [a] && [a][..0] == [];
  }

  /** The door alone cuts the first grid cell of that wall. */
  lemma DefaultWallFirstCuts(os: seq<Opening>)
    requires DefaultOpenings(os)
    ensures CutsFor(Rect(0, 0, 120, 250), os) == [Cut(50, 0, 70, 210, 50, 0, "porte")]
  {
    assert os == [os[0], os[1]];
    CutsForPair(Rect(0, 0, 120, 250), os[0], os[1]);
  }

  /** Both the door and the window cut the second grid cell. */
  lemma DefaultWallSecondCuts(os: seq<Opening>)
    requires DefaultOpenings(os)
    ensures CutsFor(Rect(120, 0, 120, 250), os)
         == [Cut(120, 0, 20, 210, 0, 0, "porte"), Cut(180, 50, 60, 100, 60, 50, "fenêtre")]
  {
    assert os == [os[0], os[1]];
    CutsForPair(Rect(120, 0, 120, 250), os[0], os[1]);
  }

  /** The window alone cuts the third grid cell. */
  lemma DefaultWallThirdCuts(os: seq<Opening>)
    requires DefaultOpenings(os)
    ensures CutsFor(Rect(240, 0, 60, 250), os) == [Cut(240, 50, 40, 100, 0, 50, "fenêtre")]
  {
    assert os == [os[0], os[1]];
    CutsForPair(Rect(240, 0, 60, 250), os[0], os[1]);
  }

  /** The three panels of that wall: the door is cut out of the first
      two, the window out of the last two, and the last is trimmed to 60 cm. */
  const FirstPanel := Panel(0, 0, 120, 250, Normal, false, [Cut(50, 0, 70, 210, 50, 0, "porte")])
  const SecondPanel := Panel(120, 0, 120, 250, Normal, false,
                             [Cut(120, 0, 20, 210, 0, 0, "porte"), Cut(180, 50, 60, 100, 60, 50, "fenêtre")])
  const ThirdPanel := Panel(240, 0, 60, 250, Normal, true, [Cut(240, 50, 40, 100, 0, 50, "fenêtre")])

  const DefaultConfig := Config(Normal, 120, 250, 3, 1)

  lemma DefaultWallFirstCell(os: seq<Opening>)
    requires DefaultOpenings(os)
    ensures Cell(DefaultConfig, 300, 250, os, 0, 0) == [FirstPanel]
  {
    assert CellRect(DefaultConfig, 300, 250, 0, 0) == Rect(0, 0, 120, 250);
    assert !AnyContains(os, Rect(0, 0, 120, 250));
    DefaultWallFirstCuts(os);
  }

  lemma DefaultWallSecondCell(os: seq<Opening>)
    requires DefaultOpenings(os)
    ensures Cell(DefaultConfig, 300, 250, os, 0, 1) == [SecondPanel]
  {
    assert CellRect(DefaultConfig, 300, 250, 0, 1) == Rect(120, 0, 120, 250);
    assert !AnyContains(os, Rect(120, 0, 120, 250));
    DefaultWallSecondCuts(os);
  }

  lemma DefaultWallThirdCell(os: seq<Opening>)
    requires DefaultOpenings(os)
    ensures Cell(DefaultConfig, 300, 250, os, 0, 2) == [ThirdPanel]
  {
    assert CellRect(DefaultConfig, 300, 250, 0, 2) == Rect(240, 0, 60, 250);
    assert !AnyContains(os, Rect(240, 0, 60, 250));
    DefaultWallThirdCuts(os);
  }

  lemma DefaultWallPanels(os: seq<Opening>)
    requires DefaultOpenings(os)
    ensures Tiles(DefaultConfig, 300, 250, os) == [FirstPanel, SecondPanel, ThirdPanel]
  {
    DefaultWallFirstCell(os);
    DefaultWallSecondCell(os);
    DefaultWallThirdCell(os);
    SingleRowOfThree(DefaultConfig, 300, 250, os, FirstPanel, SecondPanel, ThirdPanel);
  }

  /** A one-row, three-column grid whose three cells each hold one panel
      yields exactly those panels, left to right. */
  lemma SingleRowOfThree(c: Config, wallWidth: int, wallHeight: int, os: seq<Opening>, a: Panel, b: Panel, d: Panel)
    requires c.rows == 1 && c.columns == 3
    requires Cell(c, wallWidth, wallHeight, os, 0, 0) == [a]
    requires Cell(c, wallWidth, wallHeight, os, 0, 1) == [b]
    requires Cell(c, wallWidth, wallHeight, os, 0, 2) == [d]
    ensures Tiles(c, wallWidth, wallHeight, os) == [a, b, d]
  {
    assert RowPanels(c, wallWidth, wallHeight, os, 0, 1) == [a];
    assert RowPanels(c, wallWidth, wallHeight, os, 0, 2) == [a, b];
    assert GridPanels(c, wallWidth, wallHeight, os, 1, 3) == RowPanels(c, wallWidth, wallHeight, os, 0, 3);
  }

  /** The strips of three panels, in panel order. */
  lemma OffcutsOfTriple(ps: seq<Panel>, fullWidth: int, fullHeight: int)
    requires |ps| == 3
    ensures OffcutsOf(ps, fullWidth, fullHeight)
         == OffcutsOf(ps[..2], fullWidth, fullHeight)
          + (if ps[2].needsTrim then StripsOf(ps[2].Bounds(), fullWidth, fullHeight) else [])
    ensures ps[..2][0] == ps[0] && ps[..2][1] == ps[1]
  {
    OffcutsOfSnoc(ps[..2], ps[2], fullWidth, fullHeight);
    assert ps[..2] + [ps[2]] == ps;
  }

  lemma ThirdPanelStrips()
    ensures StripsOf(ThirdPanel.Bounds(), 120, 250) == [Offcut(300, 0, 60, 250, 15000)]
  {
  }

  /** One strip of at least the minimum surface is kept. */
  lemma KeepSingle(s: seq<Offcut>)
    requires |s| == 1 && s[0].surface >= MinReusableSurface
    ensures KeepReusable(s) == s
  {
    assert s[..0] == [];
  }

  /** Only the last panel is trimmed, leaving one 60 x 250 strip beyond the
      wall's right edge, large enough to keep. */
  lemma DefaultWallOffcuts(ps: seq<Panel>)
    requires |ps| == 3 && ps[0] == FirstPanel && ps[1] == SecondPanel && ps[2] == ThirdPanel
    ensures KeepReusable(OffcutsOf(ps, 120, 250)) == [Offcut(300, 0, 60, 250, 15000)]
  {
    OffcutsOfTriple(ps, 120, 250);
    OffcutsOfPair(ps[..2], 120, 250);
    ThirdPanelStrips();
    KeepSingle(OffcutsOf(ps, 120, 250));
  }

  /** Of that wall's strips the one 60 x 250 strip is kept. */
  lemma DefaultWallKept(ps: seq<Panel>)
    requires |ps| == 3 && ps[0] == FirstPanel && ps[1] == SecondPanel && ps[2] == ThirdPanel
    ensures SortBySurface(KeepReusable(OffcutsOf(ps, 120, 250))) == [Offcut(300, 0, 60, 250, 15000)]
  {
    DefaultWallOffcuts(ps);
    SortSingle(KeepReusable(OffcutsOf(ps, 120, 250)));
  }

  /** The whole result for that wall: three panels, counted as three even
      though the useful area of 46100 cm² would fit in two, and one reusable
      offcut. */
  lemma DefaultWallResult(os: seq<Opening>)
    requires DefaultOpenings(os)
    ensures var r := WallPlacement(300, 250, 120, 250, os);
      && r.orientation == Normal
      && r.panels == [FirstPanel, SecondPanel, ThirdPanel]
      && r.usefulArea == 46100
      && CeilDiv(r.usefulArea, 120 * 250) == 2
      && r.panelCount == 3
      && r.offcuts == [Offcut(300, 0, 60, 250, 15000)]
  {
    var ps := Tiles(DefaultConfig, 300, 250, os);
    DefaultWallConfig();
    DefaultWallPanels(os);
    DefaultWallKept(ps);
    DefaultOpeningsArea(os);
    assert CeilDiv(46100, 30000) == 2;
  }

  /** The door and the window hide 90 x 210 + 100 x 100 cm² of the wall. */
  lemma DefaultOpeningsArea(os: seq<Opening>)
    requires DefaultOpenings(os)
    ensures OpeningsArea(os) == 28900
  {
    var init := os[..1];
    assert init[..0] == [];
    assert OpeningsArea(init) == 18900;
    assert os[..|os| - 1] == init;
  }
}
