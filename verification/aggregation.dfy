/** The whole-project run: each wall is placed on its own, and the results
    are tagged with their wall and summed into one report. */
module Aggregation {
  import opened Geometry
  import opened Project
  import opened Offcuts
  import opened Tiling
  import opened Placement

  /** A panel of the report, tagged with the wall it belongs to. */
  datatype TaggedPanel = TaggedPanel(panel: Panel, wallId: int, wallName: string)

  /** A reusable offcut of the report, tagged with the wall it comes from. */
  datatype TaggedOffcut = TaggedOffcut(offcut: Offcut, wallId: int, wallName: string)

  /** The per-wall line of the report. */
  datatype WallSummary = WallSummary(
    wallId: int,
    wallName: string,
    panelCount: int,
    usefulArea: int,
    openingCount: int,
    offcutCount: int)

  /** A JavaScript number as far as the waste percentage needs one: an
      exact fraction with a positive denominator, or what a division by
      zero yields. */
  datatype Number = Ratio(numerator: int, denominator: int) | PositiveInfinity | NaN
  {
    function Value(): real
      requires Ratio? && denominator != 0
    {
      numerator as real / denominator as real
    }
  }

  datatype OffcutSummary = OffcutSummary(count: int, surface: int, details: seq<TaggedOffcut>)

  datatype Report = Report(
    panels: seq<TaggedPanel>,
    panelCount: int,
    totalArea: int,
    usefulArea: int,
    wastePercentage: Number,
    walls: seq<WallSummary>,
    offcuts: OffcutSummary)

  /** What the fold carries from one wall to the next. */
  datatype Totals = Totals(
    panels: seq<TaggedPanel>,
    usefulArea: int,
    panelCount: int,
    offcuts: seq<TaggedOffcut>,
    walls: seq<WallSummary>)

  /** Every wall has a positive size, as the wall editor guarantees. */
  predicate PositiveWalls(walls: seq<Wall>) {
    forall k :: 0 <= k < |walls| ==> walls[k].width > 0 && walls[k].height > 0
  }

  function Placed(w: Wall, panelWidth: int, panelHeight: int): WallResult
    requires w.width > 0 && w.height > 0 && panelWidth > 0 && panelHeight > 0
  {
    WallPlacement(w.width, w.height, panelWidth, panelHeight, w.openings)
  }

  /** The wall's area less the area of its openings. */
  function UsefulArea(w: Wall): int {
    w.width * w.height - OpeningsArea(w.openings)
  }

  function TagPanels(ps: seq<Panel>, w: Wall): (r: seq<TaggedPanel>)
    ensures |r| == |ps|
    ensures forall i :: 0 <= i < |r| ==> r[i].panel == ps[i] && r[i].wallId == w.id && r[i].wallName == w.name
  {
    seq(|ps|, i requires 0 <= i < |ps| => TaggedPanel(ps[i], w.id, w.name))
  }

  function TagOffcuts(os: seq<Offcut>, w: Wall): (r: seq<TaggedOffcut>)
    ensures |r| == |os|
    ensures forall i :: 0 <= i < |r| ==> r[i].offcut == os[i] && r[i].wallId == w.id && r[i].wallName == w.name
  {
    seq(|os|, i requires 0 <= i < |os| => TaggedOffcut(os[i], w.id, w.name))
  }

  /** The summary line of wall w whose placement is r. */
  function SummaryOf(w: Wall, r: WallResult): WallSummary {
    WallSummary(w.id, w.name, r.panelCount, UsefulArea(w), |w.openings|, |r.offcuts|)
  }

  /** The placement of every wall, in wall order. */
  function Placements(walls: seq<Wall>, panelWidth: int, panelHeight: int): (rs: seq<WallResult>)
    requires PositiveWalls(walls) && panelWidth > 0 && panelHeight > 0
    ensures |rs| == |walls|
    ensures forall k {:trigger Placed(walls[k], panelWidth, panelHeight)} :: 0 <= k < |walls| ==> rs[k] == Placed(walls[k], panelWidth, panelHeight)
  {
    seq(|walls|, k requires 0 <= k < |walls| => Placed(walls[k], panelWidth, panelHeight))
  }

  /** The fold over the first n walls, in wall order, where results[k] is
      the placement of walls[k]. */
  function Accumulate(walls: seq<Wall>, results: seq<WallResult>, n: nat): Totals
    requires |results| == |walls| && n <= |walls|
  {
    if n == 0 then Totals([], 0, 0, [], [])
    else
      var prev := Accumulate(walls, results, n - 1);
      var w := walls[n - 1];
      var r := results[n - 1];
      Totals(
        prev.panels + TagPanels(r.panels, w),
        prev.usefulArea + UsefulArea(w),
        prev.panelCount + r.panelCount,
        prev.offcuts + TagOffcuts(r.offcuts, w),
        prev.walls + [SummaryOf(w, r)])
  }

  /** Sum of the offcut surfaces, as the engine's reduce computes it. */
  function OffcutsSurface(ts: seq<TaggedOffcut>): int {
    if ts == [] then 0 else OffcutsSurface(ts[..|ts| - 1]) + ts[|ts| - 1].offcut.surface
  }

  function RealMax(a: real, b: real): real {
    if a >= b then a else b
  }

  /** Math.max(0, ((total - useful) / total) * 100), kept as an exact
      fraction, with JavaScript's division by zero: 0 / 0 is NaN, which
      Math.max passes on; a negative numerator over zero is -Infinity, which
      the clamp turns into 0; a positive one is +Infinity. */
  function WastePercentage(total: int, useful: int): Number {
    if total > 0 then
      (if total - useful >= 0 then Ratio(100 * (total - useful), total) else Ratio(0, 1))
    else if total < 0 then
      (if total - useful <= 0 then Ratio(100 * (useful - total), -total) else Ratio(0, 1))
    else if total - useful == 0 then NaN
    else if total - useful > 0 then PositiveInfinity
    else Ratio(0, 1)
  }

  /** For a non-zero total the fraction is the engine's formula evaluated
      over the reals. */
  lemma WastePercentageFormula(total: int, useful: int)
    requires total != 0
    ensures var p := WastePercentage(total, useful);
      && p.Ratio? && p.denominator > 0
      && p.Value() == RealMax(0.0, ((total - useful) as real / total as real) * 100.0)
  {
  }

  /** The report built from the totals of the fold. */
  function ReportOf(t: Totals, panelWidth: int, panelHeight: int): Report {
    var total := t.panelCount * (panelWidth * panelHeight);
    Report(
      t.panels,
      t.panelCount,
      total,
      t.usefulArea,
      WastePercentage(total, t.usefulArea),
      t.walls,
      OffcutSummary(|t.offcuts|, OffcutsSurface(t.offcuts), t.offcuts))
  }

  /** The report the engine returns for a whole project. */
  function Aggregate(walls: seq<Wall>, panelWidth: int, panelHeight: int): Report
    requires PositiveWalls(walls) && panelWidth > 0 && panelHeight > 0
  {
    ReportOf(Accumulate(walls, Placements(walls, panelWidth, panelHeight), |walls|), panelWidth, panelHeight)
  }

  /** The engine's work for one wall: place it, tag its panels and
      offcuts with the wall, and compute its useful area and summary line. */
  method PlaceWall(w: Wall, panelWidth: int, panelHeight: int)
    returns (tagged: seq<TaggedPanel>, useful: int, count: int, offcuts: seq<TaggedOffcut>, summary: WallSummary)
    requires w.width > 0 && w.height > 0 && panelWidth > 0 && panelHeight > 0
    ensures var r := Placed(w, panelWidth, panelHeight);
      && tagged == TagPanels(r.panels, w)
      && useful == UsefulArea(w)
      && count == r.panelCount
      && offcuts == TagOffcuts(r.offcuts, w)
      && summary == SummaryOf(w, r)
  {
    var res := OptimizePlacement(w.width, w.height, panelWidth, panelHeight, w.openings);
    tagged := TagPanels(res.panels, w);
    useful := w.width * w.height - OpeningsArea(w.openings);
    offcuts := TagOffcuts(res.offcuts, w);
    count := res.panelCount;
    summary := WallSummary(w.id, w.name, res.panelCount, useful, |w.openings|, |offcuts|);
  }

  /** The end of the engine's run: total panel area, waste percentage,
      and the offcut summary. */
  method BuildReport(t: Totals, panelWidth: int, panelHeight: int) returns (report: Report)
    ensures report == ReportOf(t, panelWidth, panelHeight)
  {
    var panelArea := panelWidth * panelHeight;
    var totalArea := t.panelCount * panelArea;
    var percentage := WastePercentage(totalArea, t.usefulArea);
    var offcutSurface := OffcutsSurface(t.offcuts);
    report := Report(
      t.panels, t.panelCount, totalArea, t.usefulArea, percentage, t.walls,
      OffcutSummary(|t.offcuts|, offcutSurface, t.offcuts));
  }

  /** One pass of the engine's loop: place wall i and add its panels,
      offcuts, summary line and counts to the running totals. */
  method AddWall(walls: seq<Wall>, i: nat, acc: Totals, panelWidth: int, panelHeight: int) returns (next: Totals)
    requires PositiveWalls(walls) && i < |walls| && panelWidth > 0 && panelHeight > 0
    requires acc == Accumulate(walls, Placements(walls, panelWidth, panelHeight), i)
    ensures next == Accumulate(walls, Placements(walls, panelWidth, panelHeight), i + 1)
  {
    var tagged, useful, count, offcuts, summary := PlaceWall(walls[i], panelWidth, panelHeight);
    next := Totals(
      acc.panels + tagged,
      acc.usefulArea + useful,
      acc.panelCount + count,
      acc.offcuts + offcuts,
      acc.walls + [summary]);
  }

  /** The engine's loop over the walls, then the final report. */
  method OptimizeAllWalls(walls: seq<Wall>, panelWidth: int, panelHeight: int) returns (report: Report)
    requires PositiveWalls(walls) && panelWidth > 0 && panelHeight > 0
    ensures report == Aggregate(walls, panelWidth, panelHeight)
  {
    var totals := Totals([], 0, 0, [], []);
    var i := 0;
    while i < |walls|
      invariant 0 <= i <= |walls|
      invariant totals == Accumulate(walls, Placements(walls, panelWidth, panelHeight), i)
    {
      totals := AddWall(walls, i, totals, panelWidth, panelHeight);
      i := i + 1;
    }
    report := BuildReport(totals, panelWidth, panelHeight);
  }

  // ---------------------------------------------------------------------
  // Properties of the fold and of the report.

  function PanelCountSum(ss: seq<WallSummary>): int {
    if ss == [] then 0 else PanelCountSum(ss[..|ss| - 1]) + ss[|ss| - 1].panelCount
  }

  function UsefulAreaSum(ss: seq<WallSummary>): int {
    if ss == [] then 0 else UsefulAreaSum(ss[..|ss| - 1]) + ss[|ss| - 1].usefulArea
  }

  function OffcutCountSum(ss: seq<WallSummary>): int {
    if ss == [] then 0 else OffcutCountSum(ss[..|ss| - 1]) + ss[|ss| - 1].offcutCount
  }

  /** After n walls there is one summary line per wall, in wall order. */
  lemma {:induction false} AccumulateLines(walls: seq<Wall>, results: seq<WallResult>, n: nat)
    requires |results| == |walls| && n <= |walls|
    ensures var t := Accumulate(walls, results, n);
      && |t.walls| == n
      && forall k :: 0 <= k < n ==> t.walls[k] == SummaryOf(walls[k], results[k])
  {
    if n > 0 {
      AccumulateLines(walls, results, n - 1);
    }
  }

  /** The running panel count is the sum of the summary lines' counts. */
  lemma {:induction false} AccumulatePanelCount(walls: seq<Wall>, results: seq<WallResult>, n: nat)
    requires |results| == |walls| && n <= |walls|
    ensures Accumulate(walls, results, n).panelCount == PanelCountSum(Accumulate(walls, results, n).walls)
  {
    if n > 0 {
      var prev := Accumulate(walls, results, n - 1);
      var ss := Accumulate(walls, results, n).walls;
      AccumulatePanelCount(walls, results, n - 1);
      assert ss[..|ss| - 1] == prev.walls;
    }
  }

  /** The running useful area is the sum of the summary lines' areas. */
  lemma {:induction false} AccumulateUsefulArea(walls: seq<Wall>, results: seq<WallResult>, n: nat)
    requires |results| == |walls| && n <= |walls|
    ensures Accumulate(walls, results, n).usefulArea == UsefulAreaSum(Accumulate(walls, results, n).walls)
  {
    if n > 0 {
      var prev := Accumulate(walls, results, n - 1);
      var ss := Accumulate(walls, results, n).walls;
      AccumulateUsefulArea(walls, results, n - 1);
      assert ss[..|ss| - 1] == prev.walls;
    }
  }

  /** The number of offcuts kept is the sum of the summary lines' counts. */
  lemma {:induction false} AccumulateOffcutCount(walls: seq<Wall>, results: seq<WallResult>, n: nat)
    requires |results| == |walls| && n <= |walls|
    ensures |Accumulate(walls, results, n).offcuts| == OffcutCountSum(Accumulate(walls, results, n).walls)
  {
    if n > 0 {
      var prev := Accumulate(walls, results, n - 1);
      var ss := Accumulate(walls, results, n).walls;
      AccumulateOffcutCount(walls, results, n - 1);
      assert ss[..|ss| - 1] == prev.walls;
    }
  }

  /** What the fold needs of each wall's placement: at least as many panels
      counted as laid, and enough counted panel area for the useful area. */
  predicate CountsCover(walls: seq<Wall>, results: seq<WallResult>, panelWidth: int, panelHeight: int) {
    && |results| == |walls|
    && forall k :: 0 <= k < |results| ==>
         && |results[k].panels| <= results[k].panelCount
         && results[k].panelCount * (panelWidth * panelHeight) >= UsefulArea(walls[k])
  }

  /** After n walls: at least as many panels are counted as are laid, and
      the counted panels' area covers the useful area. */
  lemma {:induction false} AccumulateBounds(walls: seq<Wall>, results: seq<WallResult>, n: nat, panelWidth: int, panelHeight: int)
    requires CountsCover(walls, results, panelWidth, panelHeight) && n <= |walls|
    ensures var t := Accumulate(walls, results, n);
      && |t.panels| <= t.panelCount
      && t.panelCount * (panelWidth * panelHeight) >= t.usefulArea
  {
    if n > 0 {
      var prev := Accumulate(walls, results, n - 1);
      var r := results[n - 1];
      AccumulateBounds(walls, results, n - 1, panelWidth, panelHeight);
      var a := panelWidth * panelHeight;
      assert (prev.panelCount + r.panelCount) * a == prev.panelCount * a + r.panelCount * a;
    }
  }

  lemma PlacementsCover(walls: seq<Wall>, panelWidth: int, panelHeight: int)
    requires PositiveWalls(walls) && panelWidth > 0 && panelHeight > 0
    ensures CountsCover(walls, Placements(walls, panelWidth, panelHeight), panelWidth, panelHeight)
  {
    var rs := Placements(walls, panelWidth, panelHeight);
    forall k | 0 <= k < |rs|
      ensures |rs[k].panels| <= rs[k].panelCount
      ensures rs[k].panelCount * (panelWidth * panelHeight) >= UsefulArea(walls[k])
    {
      var w := walls[k];
      PanelCountBounds(w.width, w.height, panelWidth, panelHeight, w.openings);
    }
  }

  /** Every offcut of every placement is worth keeping. */
  predicate AllReusable(results: seq<WallResult>) {
    forall k, o :: 0 <= k < |results| && o in results[k].offcuts ==> o.surface >= MinReusableSurface
  }

  /** A list of offcuts each of at least the minimum surface has at least
      that surface per offcut in total. */
  lemma {:induction false} OffcutsSurfaceBound(s: seq<TaggedOffcut>)
    requires forall j :: 0 <= j < |s| ==> s[j].offcut.surface >= MinReusableSurface
    ensures OffcutsSurface(s) >= MinReusableSurface * |s|
  {
    if s != [] {
      OffcutsSurfaceBound(s[..|s| - 1]);
    }
  }

  predicate ReusableTagged(ts: seq<TaggedOffcut>) {
    forall j :: 0 <= j < |ts| ==> ts[j].offcut.surface >= MinReusableSurface
  }

  /** After n walls every collected offcut is reusable. */
  lemma {:induction false} AccumulateOffcuts(walls: seq<Wall>, results: seq<WallResult>, n: nat)
    requires |results| == |walls| && n <= |walls| && AllReusable(results)
    ensures ReusableTagged(Accumulate(walls, results, n).offcuts)
  {
    if n > 0 {
      var prev := Accumulate(walls, results, n - 1);
      var t := Accumulate(walls, results, n);
      var r := results[n - 1];
      AccumulateOffcuts(walls, results, n - 1);
      forall j | 0 <= j < |t.offcuts|
        ensures t.offcuts[j].offcut.surface >= MinReusableSurface
      {
        if j < |prev.offcuts| {
          assert t.offcuts[j] == prev.offcuts[j];
        } else {
          assert t.offcuts[j].offcut == r.offcuts[j - |prev.offcuts|];
          assert r.offcuts[j - |prev.offcuts|] in results[n - 1].offcuts;
        }
      }
    }
  }

  lemma PlacementsReusable(walls: seq<Wall>, panelWidth: int, panelHeight: int)
    requires PositiveWalls(walls) && panelWidth > 0 && panelHeight > 0
    ensures AllReusable(Placements(walls, panelWidth, panelHeight))
  {
    var rs := Placements(walls, panelWidth, panelHeight);
    forall k, o | 0 <= k < |rs| && o in rs[k].offcuts
      ensures o.surface >= MinReusableSurface
    {
      var w := walls[k];
      ReportedOffcuts(w.width, w.height, panelWidth, panelHeight, w.openings);
    }
  }

  /** The report lists only reusable offcuts, so their total surface is at
      least the minimum surface per offcut. */
  lemma ReportOffcutsReusable(walls: seq<Wall>, panelWidth: int, panelHeight: int)
    requires PositiveWalls(walls) && panelWidth > 0 && panelHeight > 0
    ensures var r := Aggregate(walls, panelWidth, panelHeight);
      && (forall j :: 0 <= j < |r.offcuts.details| ==> r.offcuts.details[j].offcut.surface >= MinReusableSurface)
      && r.offcuts.surface >= MinReusableSurface * r.offcuts.count
  {
    var rs := Placements(walls, panelWidth, panelHeight);
    var t := Accumulate(walls, rs, |walls|);
    PlacementsReusable(walls, panelWidth, panelHeight);
    AccumulateOffcuts(walls, rs, |walls|);
    OffcutsSurfaceBound(t.offcuts);
  }

  /** The number of panels the first k placements lay: where wall k's
      panels start in the project's list. */
  function PanelsBefore(results: seq<WallResult>, k: nat): nat
    requires k <= |results|
  {
    if k == 0 then 0 else PanelsBefore(results, k - 1) + |results[k - 1].panels|
  }

  /** The number of offcuts the first k placements keep. */
  function OffcutsBefore(results: seq<WallResult>, k: nat): nat
    requires k <= |results|
  {
    if k == 0 then 0 else OffcutsBefore(results, k - 1) + |results[k - 1].offcuts|
  }

  lemma {:induction false} BeforeGrows(results: seq<WallResult>, k: nat, m: nat)
    requires k < m <= |results|
    ensures PanelsBefore(results, k) + |results[k].panels| <= PanelsBefore(results, m)
    ensures OffcutsBefore(results, k) + |results[k].offcuts| <= OffcutsBefore(results, m)
    decreases m
  {
    if k < m - 1 {
      BeforeGrows(results, k, m - 1);
    }
  }

  /** Entry i of wall k's panels sits, tagged with wall k, at offset
      PanelsBefore(results, k) + i of ps. */
  predicate PanelAt(ps: seq<TaggedPanel>, walls: seq<Wall>, results: seq<WallResult>, k: nat, i: nat)
    requires k < |results| == |walls| && i < |results[k].panels|
  {
    && PanelsBefore(results, k) + i < |ps|
    && ps[PanelsBefore(results, k) + i] == TaggedPanel(results[k].panels[i], walls[k].id, walls[k].name)
  }

  /** Block k of ps, starting after the panels of the first k placements,
      holds wall k's panels in their order, tagged with that wall. */
  predicate PanelBlocks(ps: seq<TaggedPanel>, walls: seq<Wall>, results: seq<WallResult>, n: nat)
    requires |results| == |walls| && n <= |walls|
  {
    forall k: nat, i: nat :: k < n && i < |results[k].panels| ==> PanelAt(ps, walls, results, k, i)
  }

  /** Appending wall n-1's tagged panels to the first n-1 blocks keeps
      every earlier entry and puts wall n-1's panels in block n-1. */
  lemma PanelBlocksExtend(walls: seq<Wall>, results: seq<WallResult>, n: nat, ps: seq<TaggedPanel>, added: seq<TaggedPanel>)
    requires |results| == |walls| && 0 < n <= |walls|
    requires |ps| == PanelsBefore(results, n - 1) && PanelBlocks(ps, walls, results, n - 1)
    requires added == TagPanels(results[n - 1].panels, walls[n - 1])
    ensures PanelBlocks(ps + added, walls, results, n)
  {
    forall k: nat, i: nat | k < n && i < |results[k].panels|
      ensures PanelAt(ps + added, walls, results, k, i)
    {
      if k < n - 1 {
        BeforeGrows(results, k, n - 1);
        assert PanelAt(ps, walls, results, k, i);
      } else {
        assert (ps + added)[|ps| + i] == added[i];
      }
    }
  }

  /** Entry i of wall k's offcuts sits, tagged with wall k, at offset
      OffcutsBefore(results, k) + i of ts. */
  predicate OffcutAt(ts: seq<TaggedOffcut>, walls: seq<Wall>, results: seq<WallResult>, k: nat, i: nat)
    requires k < |results| == |walls| && i < |results[k].offcuts|
  {
    && OffcutsBefore(results, k) + i < |ts|
    && ts[OffcutsBefore(results, k) + i] == TaggedOffcut(results[k].offcuts[i], walls[k].id, walls[k].name)
  }

  /** The same layout for tagged offcuts. */
  predicate OffcutBlocks(ts: seq<TaggedOffcut>, walls: seq<Wall>, results: seq<WallResult>, n: nat)
    requires |results| == |walls| && n <= |walls|
  {
    forall k: nat, i: nat :: k < n && i < |results[k].offcuts| ==> OffcutAt(ts, walls, results, k, i)
  }

  /** The same for wall n-1's tagged offcuts. */
  lemma OffcutBlocksExtend(walls: seq<Wall>, results: seq<WallResult>, n: nat, ts: seq<TaggedOffcut>, added: seq<TaggedOffcut>)
    requires |results| == |walls| && 0 < n <= |walls|
    requires |ts| == OffcutsBefore(results, n - 1) && OffcutBlocks(ts, walls, results, n - 1)
    requires added == TagOffcuts(results[n - 1].offcuts, walls[n - 1])
    ensures OffcutBlocks(ts + added, walls, results, n)
  {
    forall k: nat, i: nat | k < n && i < |results[k].offcuts|
      ensures OffcutAt(ts + added, walls, results, k, i)
    {
      if k < n - 1 {
        BeforeGrows(results, k, n - 1);
        assert OffcutAt(ts, walls, results, k, i);
      } else {
        assert (ts + added)[|ts| + i] == added[i];
      }
    }
  }

  /** After n walls the panel list is every wall's panels, tagged with that
      wall, one block per wall in wall order: its length is the sum over the
      walls, and block k holds exactly wall k's panels. */
  lemma {:induction false} AccumulatePanels(walls: seq<Wall>, results: seq<WallResult>, n: nat)
    requires |results| == |walls| && n <= |walls|
    ensures |Accumulate(walls, results, n).panels| == PanelsBefore(results, n)
    ensures PanelBlocks(Accumulate(walls, results, n).panels, walls, results, n)
  {
    if n > 0 {
      var prev := Accumulate(walls, results, n - 1);
      AccumulatePanels(walls, results, n - 1);
      PanelBlocksExtend(walls, results, n, prev.panels, TagPanels(results[n - 1].panels, walls[n - 1]));
    }
  }

  /** The same layout for the offcut list. */
  lemma {:induction false} AccumulateOffcutList(walls: seq<Wall>, results: seq<WallResult>, n: nat)
    requires |results| == |walls| && n <= |walls|
    ensures |Accumulate(walls, results, n).offcuts| == OffcutsBefore(results, n)
    ensures OffcutBlocks(Accumulate(walls, results, n).offcuts, walls, results, n)
  {
    if n > 0 {
      var prev := Accumulate(walls, results, n - 1);
      AccumulateOffcutList(walls, results, n - 1);
      OffcutBlocksExtend(walls, results, n, prev.offcuts, TagOffcuts(results[n - 1].offcuts, walls[n - 1]));
    }
  }

  /** The report lists every wall's panels and kept offcuts, tagged with
      that wall, wall after wall: the list lengths are the sums over the
      walls, and block k holds exactly wall k's items in their order. */
  lemma ReportLists(walls: seq<Wall>, panelWidth: int, panelHeight: int)
    requires PositiveWalls(walls) && panelWidth > 0 && panelHeight > 0
    ensures var r := Aggregate(walls, panelWidth, panelHeight);
      var rs := Placements(walls, panelWidth, panelHeight);
      && |r.panels| == PanelsBefore(rs, |walls|)
      && |r.offcuts.details| == OffcutsBefore(rs, |walls|)
      && PanelBlocks(r.panels, walls, rs, |walls|)
      && OffcutBlocks(r.offcuts.details, walls, rs, |walls|)
  {
    var rs := Placements(walls, panelWidth, panelHeight);
    AccumulatePanels(walls, rs, |walls|);
    AccumulateOffcutList(walls, rs, |walls|);
  }

  /** The tagged panel p carries wall w's identifier and name and is one
      of the panels of w's placement r. */
  predicate PanelFrom(p: TaggedPanel, w: Wall, r: WallResult) {
    p.wallId == w.id && p.wallName == w.name && p.panel in r.panels
  }

  predicate OffcutFrom(o: TaggedOffcut, w: Wall, r: WallResult) {
    o.wallId == w.id && o.wallName == w.name && o.offcut in r.offcuts
  }

  /** Every tagged panel comes from the placement of one of the first n
      walls, the one whose identifier and name it carries. */
  predicate PanelsFrom(ps: seq<TaggedPanel>, walls: seq<Wall>, results: seq<WallResult>, n: nat)
    requires |results| == |walls| && n <= |walls|
  {
    forall j :: 0 <= j < |ps| ==> exists k :: 0 <= k < n && PanelFrom(ps[j], walls[k], results[k])
  }

  /** The same for tagged offcuts. */
  predicate OffcutsFrom(ts: seq<TaggedOffcut>, walls: seq<Wall>, results: seq<WallResult>, n: nat)
    requires |results| == |walls| && n <= |walls|
  {
    forall j :: 0 <= j < |ts| ==> exists k :: 0 <= k < n && OffcutFrom(ts[j], walls[k], results[k])
  }

  /** After n walls every tagged panel and offcut comes from the placement
      of the wall whose identifier and name it carries. */
  lemma {:induction false} AccumulateOrigins(walls: seq<Wall>, results: seq<WallResult>, n: nat)
    requires |results| == |walls| && n <= |walls|
    ensures PanelsFrom(Accumulate(walls, results, n).panels, walls, results, n)
    ensures OffcutsFrom(Accumulate(walls, results, n).offcuts, walls, results, n)
  {
    if n > 0 {
      var prev := Accumulate(walls, results, n - 1);
      var t := Accumulate(walls, results, n);
      var r := results[n - 1];
      AccumulateOrigins(walls, results, n - 1);
      forall j | 0 <= j < |t.panels|
        ensures exists k :: 0 <= k < n && PanelFrom(t.panels[j], walls[k], results[k])
      {
        if j < |prev.panels| {
          assert t.panels[j] == prev.panels[j];
        } else {
          assert t.panels[j] == TagPanels(r.panels, walls[n - 1])[j - |prev.panels|];
          assert r.panels[j - |prev.panels|] in results[n - 1].panels;
        }
      }
      forall j | 0 <= j < |t.offcuts|
        ensures exists k :: 0 <= k < n && OffcutFrom(t.offcuts[j], walls[k], results[k])
      {
        if j < |prev.offcuts| {
          assert t.offcuts[j] == prev.offcuts[j];
        } else {
          assert t.offcuts[j] == TagOffcuts(r.offcuts, walls[n - 1])[j - |prev.offcuts|];
          assert r.offcuts[j - |prev.offcuts|] in results[n - 1].offcuts;
        }
      }
    }
  }

  /** The waste percentage when the panels' area is at least the useful
      area: over a positive total it is the unclamped fraction, between 0
      and 100 when the useful area is not negative; over a zero total it is
      NaN when nothing is useful and +Infinity when the useful area is
      negative. */
  lemma WastePercentageRange(total: int, useful: int)
    requires total >= useful
    ensures total > 0 ==> WastePercentage(total, useful) == Ratio(100 * (total - useful), total)
    ensures total > 0 && useful >= 0 ==>
      0 <= WastePercentage(total, useful).numerator <= 100 * WastePercentage(total, useful).denominator
    ensures total == 0 ==> (WastePercentage(total, useful) == NaN <==> useful == 0)
    ensures total == 0 && useful < 0 ==> WastePercentage(total, useful) == PositiveInfinity
  {
  }

  /** The report has one summary line per wall, in wall order, and its
      totals are the sums of those lines. */
  lemma ReportLines(walls: seq<Wall>, panelWidth: int, panelHeight: int)
    requires PositiveWalls(walls) && panelWidth > 0 && panelHeight > 0
    ensures var r := Aggregate(walls, panelWidth, panelHeight);
      && |r.walls| == |walls|
      && (forall k :: 0 <= k < |walls| ==> r.walls[k] == SummaryOf(walls[k], Placed(walls[k], panelWidth, panelHeight)))
      && r.panelCount == PanelCountSum(r.walls)
      && r.usefulArea == UsefulAreaSum(r.walls)
      && r.offcuts.count == OffcutCountSum(r.walls)
  {
    var rs := Placements(walls, panelWidth, panelHeight);
    AccumulateLines(walls, rs, |walls|);
    AccumulatePanelCount(walls, rs, |walls|);
    AccumulateUsefulArea(walls, rs, |walls|);
    AccumulateOffcutCount(walls, rs, |walls|);
  }

  /** The report counts at least the panels it lists, its panel area
      covers the useful area, and the panel area is zero only when no panel
      is counted. */
  lemma ReportCounts(walls: seq<Wall>, panelWidth: int, panelHeight: int)
    requires PositiveWalls(walls) && panelWidth > 0 && panelHeight > 0
    ensures var r := Aggregate(walls, panelWidth, panelHeight);
      && 0 <= |r.panels| <= r.panelCount
      && r.totalArea >= r.usefulArea
      && (r.totalArea == 0 <==> r.panelCount == 0)
  {
    var rs := Placements(walls, panelWidth, panelHeight);
    PlacementsCover(walls, panelWidth, panelHeight);
    AccumulateBounds(walls, rs, |walls|, panelWidth, panelHeight);
    var t := Accumulate(walls, rs, |walls|);
    if t.panelCount > 0 {
      MulStep(0, t.panelCount, panelWidth * panelHeight);
    }
  }

  /** The waste percentage of a report whose panel area covers its useful
      area: over a positive panel area the plain fraction, at most 100 when
      the useful area is not negative; with no panel counted, NaN exactly
      when nothing is useful. */
  predicate WasteUnclamped(r: Report) {
    && (r.totalArea > 0 ==> r.wastePercentage == Ratio(100 * (r.totalArea - r.usefulArea), r.totalArea))
    && (r.totalArea > 0 && r.usefulArea >= 0 ==>
          r.wastePercentage.Ratio? && 0 <= r.wastePercentage.numerator <= 100 * r.wastePercentage.denominator)
    && (r.panelCount == 0 ==> (r.wastePercentage == NaN <==> r.usefulArea == 0))
  }

  /** Since the panel area covers the useful area, the engine's clamp to
      zero never applies. */
  lemma ReportWaste(walls: seq<Wall>, panelWidth: int, panelHeight: int)
    requires PositiveWalls(walls) && panelWidth > 0 && panelHeight > 0
    ensures WasteUnclamped(Aggregate(walls, panelWidth, panelHeight))
  {
    var t := Accumulate(walls, Placements(walls, panelWidth, panelHeight), |walls|);
    ReportCounts(walls, panelWidth, panelHeight);
    TotalsWaste(t, panelWidth, panelHeight);
  }

  lemma TotalsWaste(t: Totals, panelWidth: int, panelHeight: int)
    requires t.panelCount * (panelWidth * panelHeight) >= t.usefulArea
    requires t.panelCount * (panelWidth * panelHeight) == 0 <==> t.panelCount == 0
    ensures WasteUnclamped(ReportOf(t, panelWidth, panelHeight))
  {
    var r := ReportOf(t, panelWidth, panelHeight);
    WastePercentageRange(r.totalArea, r.usefulArea);
  }

  /** A project without walls reports nothing, and 0 / 0 as its waste
      percentage. */
  lemma EmptyProject(walls: seq<Wall>, panelWidth: int, panelHeight: int)
    requires |walls| == 0 && panelWidth > 0 && panelHeight > 0
    ensures Aggregate(walls, panelWidth, panelHeight) == Report([], 0, 0, 0, NaN, [], OffcutSummary(0, 0, []))
  {
  }

  // ---------------------------------------------------------------------
  // The default project: a 300 x 250 wall with a door and a window, and a
  // 188 x 238 wall without openings, panelled with 120 x 250 panels.

  predicate DefaultProject(walls: seq<Wall>) {
    && |walls| == 2
    && walls[0].id == 1 && walls[0].name == "Mur 1" && walls[0].width == 300 && walls[0].height == 250
    && DefaultOpenings(walls[0].openings)
    && walls[1].id == 2 && walls[1].name == "Mur 2" && walls[1].width == 188 && walls[1].height == 238
    && |walls[1].openings| == 0
  }

  /** The fold over two walls. */
  lemma {:induction false} AccumulateTwo(walls: seq<Wall>, results: seq<WallResult>)
    requires |walls| == 2 && |results| == 2
    ensures var t := Accumulate(walls, results, |walls|);
      && t.panels == TagPanels(results[0].panels, walls[0]) + TagPanels(results[1].panels, walls[1])
      && t.usefulArea == UsefulArea(walls[0]) + UsefulArea(walls[1])
      && t.panelCount == results[0].panelCount + results[1].panelCount
      && t.offcuts == TagOffcuts(results[0].offcuts, walls[0]) + TagOffcuts(results[1].offcuts, walls[1])
      && t.walls == [SummaryOf(walls[0], results[0]), SummaryOf(walls[1], results[1])]
  {
    var one := |walls| - 1;
    assert Accumulate(walls, results, one - 1) == Totals([], 0, 0, [], []);
    var first := Accumulate(walls, results, one);
    assert first.panels == [] + TagPanels(results[0].panels, walls[0]);
    assert first.offcuts == [] + TagOffcuts(results[0].offcuts, walls[0]);
    assert first.walls == [] + [SummaryOf(walls[0], results[0])];
  }

  lemma OffcutsSurfaceTwo(s: seq<TaggedOffcut>)
    requires |s| == 2
    ensures OffcutsSurface(s) == s[0].offcut.surface + s[1].offcut.surface
  {
    var init := s[..|s| - 1];
    assert init[..|init| - 1] == [];
    assert OffcutsSurface(init) == init[0].offcut.surface;
  }

  /** A single tagged offcut list, element by element. */
  lemma TagOneOffcut(o: Offcut, w: Wall)
    ensures TagOffcuts([o], w) == [TaggedOffcut(o, w.id, w.name)]
  {
    var r := TagOffcuts([o], w);
    assert r[0] == TaggedOffcut(o, w.id, w.name);
  }

  /** What the default walls' placements are made of. */
  predicate DefaultResults(results: seq<WallResult>) {
    && |results| == 2
    && |results[0].panels| == 3 && results[0].panelCount == 3
    && results[0].offcuts == [Offcut(300, 0, 60, 250, 15000)]
    && |results[1].panels| == 2 && results[1].panelCount == 2
    && results[1].offcuts == [Offcut(188, 0, 52, 238, 12376)]
  }

  lemma DefaultPlacements(walls: seq<Wall>)
    requires DefaultProject(walls)
    ensures DefaultResults(Placements(walls, 120, 250))
  {
    FirstWallPlaced(walls[0]);
    SecondWallPlaced(walls[1]);
  }

  lemma FirstWallPlaced(w: Wall)
    requires w.width == 300 && w.height == 250 && DefaultOpenings(w.openings)
    ensures var r := Placed(w, 120, 250);
      |r.panels| == 3 && r.panelCount == 3 && r.offcuts == [Offcut(300, 0, 60, 250, 15000)]
  {
    DefaultWallResult(w.openings);
  }

  lemma SecondWallPlaced(w: Wall)
    requires w.width == 188 && w.height == 238 && |w.openings| == 0
    ensures var r := Placed(w, 120, 250);
      |r.panels| == 2 && r.panelCount == 2 && r.offcuts == [Offcut(188, 0, 52, 238, 12376)]
  {
    SmallWallResult(w.openings);
  }

  /** The running totals after the two default walls. */
  lemma DefaultProjectTotals(walls: seq<Wall>, results: seq<WallResult>)
    requires DefaultProject(walls) && DefaultResults(results)
    ensures var t := Accumulate(walls, results, |walls|);
      && |t.panels| == 5
      && t.panelCount == 5
      && t.usefulArea == 90844
      && t.walls == [WallSummary(1, "Mur 1", 3, 46100, 2, 1), WallSummary(2, "Mur 2", 2, 44744, 0, 1)]
      && t.offcuts == [TaggedOffcut(Offcut(300, 0, 60, 250, 15000), 1, "Mur 1"),
                       TaggedOffcut(Offcut(188, 0, 52, 238, 12376), 2, "Mur 2")]
  {
    DefaultOpeningsArea(walls[0].openings);
    AccumulateTwo(walls, results);
    TagOneOffcut(results[0].offcuts[0], walls[0]);
    TagOneOffcut(results[1].offcuts[0], walls[1]);
  }

  /** The report of the default project: five panels (three on the first
      wall, two on the second) for 90844 cm² of useful area, so a waste of
      (150000 - 90844) / 150000, and one reusable strip beside each wall,
      60 x 250 and 52 x 238. */
  lemma DefaultProjectReport(walls: seq<Wall>)
    requires DefaultProject(walls)
    ensures var r := Aggregate(walls, 120, 250);
      && |r.panels| == 5
      && r.panelCount == 5
      && r.totalArea == 150000
      && r.usefulArea == 90844
      && r.wastePercentage == Ratio(5915600, 150000)
      && r.walls == [WallSummary(1, "Mur 1", 3, 46100, 2, 1), WallSummary(2, "Mur 2", 2, 44744, 0, 1)]
      && r.offcuts.details == [TaggedOffcut(Offcut(300, 0, 60, 250, 15000), 1, "Mur 1"),
                               TaggedOffcut(Offcut(188, 0, 52, 238, 12376), 2, "Mur 2")]
      && r.offcuts.count == 2
      && r.offcuts.surface == 27376
  {
    var rs := Placements(walls, 120, 250);
    DefaultPlacements(walls);
    DefaultProjectTotals(walls, rs);
    OffcutsSurfaceTwo(Accumulate(walls, rs, |walls|).offcuts);
  }
}
