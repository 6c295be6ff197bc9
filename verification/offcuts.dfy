/** Offcut strips left over when a panel is trimmed to the wall, and the
    selection of the reusable ones. */
module Offcuts {
  import opened Geometry

  /** Offcuts smaller than this surface (cm², i.e. 0.25 m²) are discarded. */
  const MinReusableSurface := 2500

  datatype Offcut = Offcut(x: int, y: int, width: int, height: int, surface: int)
  {
    function Bounds(): Rect { Rect(x, y, width, height) }
  }

  /** The strip right of a panel whose width was trimmed. */
  function LateralStrip(p: Rect, fullWidth: int): Offcut {
    Offcut(p.x + p.width, p.y, fullWidth - p.width, p.height, (fullWidth - p.width) * p.height)
  }

  /** The strip above a panel whose height was trimmed. */
  function TopStrip(p: Rect, fullHeight: int): Offcut {
    Offcut(p.x, p.y + p.height, p.width, fullHeight - p.height, p.width * (fullHeight - p.height))
  }

  /** The corner piece of a panel trimmed in both dimensions. */
  function CornerStrip(p: Rect, fullWidth: int, fullHeight: int): Offcut {
    Offcut(p.x + p.width, p.y + p.height, fullWidth - p.width, fullHeight - p.height,
           (fullWidth - p.width) * (fullHeight - p.height))
  }

  /** The panel p cut down from a full fullWidth x fullHeight panel. */
  predicate Trimmed(p: Rect, fullWidth: int, fullHeight: int) {
    0 < p.width <= fullWidth && 0 < p.height <= fullHeight
  }

  /** The offcuts of a panel trimmed from a fullWidth x fullHeight panel:
      a lateral strip when the width was trimmed, a top strip when the height
      was trimmed, and a corner piece when both were. */
  function StripsOf(p: Rect, fullWidth: int, fullHeight: int): seq<Offcut> {
    (if p.width < fullWidth then [LateralStrip(p, fullWidth)] else [])
    + (if p.height < fullHeight then [TopStrip(p, fullHeight)] else [])
    + (if p.width < fullWidth && p.height < fullHeight then [CornerStrip(p, fullWidth, fullHeight)] else [])
  }

  /** A trimmed dimension gives one strip, and both give the corner piece too. */
  lemma StripsOfMembers(p: Rect, fullWidth: int, fullHeight: int)
    ensures var r := StripsOf(p, fullWidth, fullHeight);
      |r| == (if p.width < fullWidth then 1 else 0) + (if p.height < fullHeight then 1 else 0)
             + (if p.width < fullWidth && p.height < fullHeight then 1 else 0)
    ensures LateralStrip(p, fullWidth) in StripsOf(p, fullWidth, fullHeight) <==> p.width < fullWidth
    ensures Trimmed(p, fullWidth, fullHeight) ==>
      (TopStrip(p, fullHeight) in StripsOf(p, fullWidth, fullHeight) <==> p.height < fullHeight)
    ensures Trimmed(p, fullWidth, fullHeight) ==>
      (CornerStrip(p, fullWidth, fullHeight) in StripsOf(p, fullWidth, fullHeight) <==> p.width < fullWidth && p.height < fullHeight)
  {
  }

  /** Every strip's surface is its area; the strips of a trimmed panel are
      non-empty, lie inside the full panel, and do not overlap the part kept. */
  lemma StripsOfShape(p: Rect, fullWidth: int, fullHeight: int)
    ensures forall o :: o in StripsOf(p, fullWidth, fullHeight) ==> o.surface == o.width * o.height
    ensures Trimmed(p, fullWidth, fullHeight) ==> forall o :: o in StripsOf(p, fullWidth, fullHeight) ==>
      && NonEmpty(o.Bounds())
      && Contains(Rect(p.x, p.y, fullWidth, fullHeight), o.Bounds())
      && !Overlaps(p, o.Bounds())
  {
  }

  function SurfaceSum(s: seq<Offcut>): int {
    if s == [] then 0 else SurfaceSum(s[..|s| - 1]) + s[|s| - 1].surface
  }

  lemma SurfaceSumAppend(s: seq<Offcut>, t: seq<Offcut>)
    ensures SurfaceSum(s + t) == SurfaceSum(s) + SurfaceSum(t)
    decreases |t|
  {
    if t != [] {
      assert (s + t)[..|s + t| - 1] == s + t[..|t| - 1];
      SurfaceSumAppend(s, t[..|t| - 1]);
    } else {
      assert s + t == s;
    }
  }

  /** The panel and its strips make up exactly one full panel. */
  lemma {:induction false} StripsConserveArea(p: Rect, fullWidth: int, fullHeight: int)
    requires Trimmed(p, fullWidth, fullHeight)
    ensures p.width * p.height + SurfaceSum(StripsOf(p, fullWidth, fullHeight)) == fullWidth * fullHeight
  {
    var s := StripsOf(p, fullWidth, fullHeight);
    var dw, dh := fullWidth - p.width, fullHeight - p.height;
    assert fullWidth * fullHeight == (p.width + dw) * (p.height + dh);
    assert (p.width + dw) * (p.height + dh) == p.width * p.height + dw * p.height + p.width * dh + dw * dh;
    if dw > 0 && dh > 0 {
      assert s == [LateralStrip(p, fullWidth)] + [TopStrip(p, fullHeight)] + [CornerStrip(p, fullWidth, fullHeight)];
      assert SurfaceSum(s) == dw * p.height + p.width * dh + dw * dh by {
        SurfaceSumAppend([LateralStrip(p, fullWidth)] + [TopStrip(p, fullHeight)], [CornerStrip(p, fullWidth, fullHeight)]);
        SurfaceSumAppend([LateralStrip(p, fullWidth)], [TopStrip(p, fullHeight)]);
      }
    } else if dw > 0 {
      assert s == [LateralStrip(p, fullWidth)];
    } else if dh > 0 {
      assert s == [TopStrip(p, fullHeight)];
    } else {
      assert s == [];
    }
  }

  /** The offcuts worth keeping, in their original order. */
  function KeepReusable(s: seq<Offcut>): (r: seq<Offcut>)
    ensures |r| <= |s|
  {
    if s == [] then []
    else
      var rest := KeepReusable(s[..|s| - 1]);
      if s[|s| - 1].surface >= MinReusableSurface then rest + [s[|s| - 1]] else rest
  }

  /** The kept offcuts are exactly those of at least the minimum surface,
      each kept as many times as it occurs. */
  lemma {:induction false} KeepReusableSelects(s: seq<Offcut>)
    ensures forall o :: o in KeepReusable(s) <==> o in s && o.surface >= MinReusableSurface
    ensures forall o: Offcut :: o.surface >= MinReusableSurface ==> multiset(KeepReusable(s))[o] == multiset(s)[o]
    ensures forall o: Offcut :: o.surface < MinReusableSurface ==> multiset(KeepReusable(s))[o] == 0
  {
    if s != [] {
      var init := s[..|s| - 1];
      KeepReusableSelects(init);
      assert s == init + [s[|s| - 1]];
    }
  }

  lemma {:induction false} KeepReusableAppend(s: seq<Offcut>, t: seq<Offcut>)
    ensures KeepReusable(s + t) == KeepReusable(s) + KeepReusable(t)
    decreases |t|
  {
    if t == [] {
      assert s + t == s;
    } else {
      assert (s + t)[..|s + t| - 1] == s + t[..|t| - 1];
      KeepReusableAppend(s, t[..|t| - 1]);
    }
  }

  predicate SortedBySurface(s: seq<Offcut>) {
    forall i, j :: 0 <= i < j < |s| ==> s[i].surface >= s[j].surface
  }

  /** Inserts o in front of the first element whose surface is not larger,
      which keeps equal surfaces in their original order. */
  function Insert(o: Offcut, s: seq<Offcut>): (r: seq<Offcut>)
    ensures multiset(r) == multiset(s) + multiset{o}
  {
    if s == [] || s[0].surface <= o.surface then [o] + s
    else
      assert s == [s[0]] + s[1..];
      [s[0]] + Insert(o, s[1..])
  }

  /** Inserting into a sorted sequence keeps it sorted; the result starts
      with o or with the sequence's own first element. */
  lemma {:induction false} InsertSorted(o: Offcut, s: seq<Offcut>)
    requires SortedBySurface(s)
    ensures SortedBySurface(Insert(o, s))
    ensures Insert(o, s)[0] == o || (s != [] && Insert(o, s)[0] == s[0])
  {
    if s == [] || s[0].surface <= o.surface {
      ConsSorted(o, s);
    } else {
      var rest := Insert(o, s[1..]);
      InsertSorted(o, s[1..]);
      ConsSorted(s[0], rest);
    }
  }

  lemma ConsSorted(a: Offcut, s: seq<Offcut>)
    requires SortedBySurface(s) && (s == [] || a.surface >= s[0].surface)
    ensures SortedBySurface([a] + s)
  {
  }

  /** A stable sort by decreasing surface, the order the engine reports
      offcuts in: a permutation of its input. */
  function SortBySurface(s: seq<Offcut>): (r: seq<Offcut>)
    ensures multiset(r) == multiset(s)
  {
    if s == [] then []
    else
      assert s == [s[0]] + s[1..];
      Insert(s[0], SortBySurface(s[1..]))
  }

  /** The sort's result is ordered by decreasing surface. */
  lemma {:induction false} SortBySurfaceSorted(s: seq<Offcut>)
    ensures SortedBySurface(SortBySurface(s))
  {
    if s != [] {
      SortBySurfaceSorted(s[1..]);
      InsertSorted(s[0], SortBySurface(s[1..]));
    }
  }
}
