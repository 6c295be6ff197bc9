/** The records a project is made of: walls and the openings cut into
    them, plus the two opening predicates the editing forms use. */
module Project {
  import opened Geometry

  datatype Option<T> = None | Some(value: T)

  /** An opening (door, window, socket, pipe, ...). Only id, position,
      size and kind matter to the engine; the remaining fields are the
      ones an opening template may set. */
  datatype Opening = Opening(
    id: int,
    x: int,
    y: int,
    width: int,
    height: int,
    kind: string,
    baseKind: Option<string>,
    shape: Option<string>,
    diameter: Option<int>,
    count: Option<int>,
    layout: Option<string>)
  {
    function Bounds(): Rect { Rect(x, y, width, height) }
  }

  datatype Wall = Wall(id: int, name: string, width: int, height: int, openings: seq<Opening>)

  /** Two openings collide exactly when their rectangles overlap. */
  predicate OpeningsOverlap(a: Opening, b: Opening) {
    Overlaps(a.Bounds(), b.Bounds())
  }

  /** An opening sticks out of a wall of the given size. */
  predicate OverflowsWall(o: Opening, wallWidth: int, wallHeight: int) {
    o.x < 0 || o.y < 0 || o.x + o.width > wallWidth || o.y + o.height > wallHeight
  }

  function WallBounds(wallWidth: int, wallHeight: int): Rect {
    Rect(0, 0, wallWidth, wallHeight)
  }

  /** The overflow test is exactly "not contained in the wall rectangle". */
  lemma OverflowsIffNotContained(o: Opening, wallWidth: int, wallHeight: int)
    ensures OverflowsWall(o, wallWidth, wallHeight) <==> !Contains(WallBounds(wallWidth, wallHeight), o.Bounds())
  {
  }

  lemma OpeningsOverlapSymmetric(a: Opening, b: Opening)
    ensures OpeningsOverlap(a, b) == OpeningsOverlap(b, a)
  {
    OverlapsSymmetric(a.Bounds(), b.Bounds());
  }

  /** Sum of the opening areas, as the engine's reduce computes it. */
  function OpeningsArea(os: seq<Opening>): int {
    if os == [] then 0 else OpeningsArea(os[..|os| - 1]) + os[|os| - 1].width * os[|os| - 1].height
  }
}
