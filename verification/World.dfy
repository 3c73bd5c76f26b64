/** The grid (simpleworld/world.cpp): which element stands on which cell, and how many there are. */
module WorldModel {
  import opened Options
  import opened Words
  import opened Movement

  datatype Kind = Egg | Bug | Food

  /** A pointer to an element, with the type the element carries; only bugs can be moved. */
  datatype Element = Element(id: nat, kind: Kind)

  datatype Outcome = Ok | WorldError

  /** A search for a free cell finds one, is told that there is none, or draws for ever: the count
      has sixteen bits and cannot tell that a region of 65536 cells or more is full. */
  datatype Search = Found(position: Position) | NoneLeft | Endless

  type Grid = map<Position, Element>

  /** Whether a cell is counted: any element, or elements of one kind. */
  predicate Counts(grid: Grid, p: Position, kind: Option<Kind>) {
    p in grid && (kind.None? || grid[p].kind == kind.value)
  }

  function InColumn(grid: Grid, x: HalfWord, y0: HalfWord, y: HalfWord, kind: Option<Kind>): nat
    decreases y
  {
    if y <= y0 then 0
    else InColumn(grid, x, y0, y - 1, kind) + if Counts(grid, Position(x, y - 1), kind) then 1 else 0
  }

  /** The number of counted cells with `x0 <= x < x1` and `y0 <= y < y1`. */
  function InRegion(grid: Grid, x0: HalfWord, x1: HalfWord, y0: HalfWord, y1: HalfWord, kind: Option<Kind>): nat
    decreases x1
  {
    if x1 <= x0 then 0
    else InRegion(grid, x0, x1 - 1, y0, y1, kind) + InColumn(grid, x1 - 1, y0, y1, kind)
  }

  predicate Within(p: Position, start: Position, end: Position) {
    start.x <= p.x < end.x && start.y <= p.y < end.y
  }

  function NumberIn(grid: Grid, start: Position, end: Position, kind: Option<Kind>): nat {
    InRegion(grid, start.x, end.x, start.y, end.y, kind)
  }

  function Area(start: Position, end: Position): int {
    (end.x as int - start.x as int) * (end.y as int - start.y as int)
  }

  // ----- What the counts mean

  /** The cells of a region that are counted. */
  ghost function CellsOf(grid: Grid, start: Position, end: Position, kind: Option<Kind>): set<Position> {
    set p | p in grid && Within(p, start, end) && Counts(grid, p, kind)
  }

  lemma ColumnSplits(grid: Grid, x: HalfWord, y0: HalfWord, y: HalfWord, kind: Option<Kind>)
    requires x < 0xFFFF && y0 < y
    ensures var top, before := Position(x, y - 1), CellsOf(grid, Position(x, y0), Position(x + 1, y - 1), kind);
            && top !in before
            && CellsOf(grid, Position(x, y0), Position(x + 1, y), kind) ==
               if Counts(grid, top, kind) then before + {top} else before
  {
  }

  lemma NoCells(grid: Grid, start: Position, end: Position, kind: Option<Kind>)
    requires end.x <= start.x || end.y <= start.y
    ensures CellsOf(grid, start, end, kind) == {}
  {
  }

  lemma {:induction false} ColumnCells(grid: Grid, x: HalfWord, y0: HalfWord, y: HalfWord, kind: Option<Kind>)
    requires x < 0xFFFF
    ensures InColumn(grid, x, y0, y, kind) == |CellsOf(grid, Position(x, y0), Position(x + 1, y), kind)|
    decreases y
  {
    hide CellsOf, Counts;
    if y <= y0 {
      NoCells(grid, Position(x, y0), Position(x + 1, y), kind);
    } else {
      ColumnCells(grid, x, y0, y - 1, kind);
      ColumnSplits(grid, x, y0, y, kind);
    }
  }

  /** The count of the nested loops is the number of cells of the region that hold an element. */
  lemma {:induction false} RegionCells(grid: Grid, x0: HalfWord, x1: HalfWord, y0: HalfWord, y1: HalfWord,
                                       kind: Option<Kind>)
    ensures InRegion(grid, x0, x1, y0, y1, kind) == |CellsOf(grid, Position(x0, y0), Position(x1, y1), kind)|
    decreases x1
  {
    var cells := CellsOf(grid, Position(x0, y0), Position(x1, y1), kind);
    if x1 <= x0 {
      assert cells == {};
    } else {
      var before := CellsOf(grid, Position(x0, y0), Position(x1 - 1, y1), kind);
      var column := CellsOf(grid, Position(x1 - 1, y0), Position(x1, y1), kind);
      RegionCells(grid, x0, x1 - 1, y0, y1, kind);
      ColumnCells(grid, x1 - 1, y0, y1, kind);
      assert cells == before + column && before * column == {};
    }
  }

  lemma {:induction false} ColumnFull(grid: Grid, x: HalfWord, y0: HalfWord, y: HalfWord)
    requires y0 <= y
    ensures InColumn(grid, x, y0, y, None) <= y - y0
    ensures (forall q: HalfWord :: y0 <= q < y ==> Position(x, q) in grid) ==> InColumn(grid, x, y0, y, None) == y - y0
    decreases y
  {
    if y <= y0 {
    } else {
      ColumnFull(grid, x, y0, y - 1);
    }
  }

  /** A region all of whose cells are taken counts as many as its area. */
  lemma {:induction false} RegionFull(grid: Grid, x0: HalfWord, x1: HalfWord, y0: HalfWord, y1: HalfWord)
    requires x0 <= x1 && y0 <= y1
    ensures InRegion(grid, x0, x1, y0, y1, None) <= (x1 - x0) * (y1 - y0)
    ensures (forall p :: Within(p, Position(x0, y0), Position(x1, y1)) ==> p in grid) ==>
              InRegion(grid, x0, x1, y0, y1, None) == (x1 - x0) * (y1 - y0)
    decreases x1
  {
    if x1 <= x0 {
    } else {
      RegionFull(grid, x0, x1 - 1, y0, y1);
      ColumnFull(grid, x1 - 1, y0, y1);
      assert (x1 - x0) * (y1 - y0) == (x1 - 1 - x0) * (y1 - y0) + (y1 - y0);
      if forall p :: Within(p, Position(x0, y0), Position(x1, y1)) ==> p in grid {
        forall q: HalfWord {:trigger Position(x1 - 1, q)} | y0 <= q < y1
          ensures Position(x1 - 1, q) in grid
        {
          assert Within(Position(x1 - 1, q), Position(x0, y0), Position(x1, y1));
        }
        forall p | Within(p, Position(x0, y0), Position(x1 - 1, y1))
          ensures p in grid
        {
          assert Within(p, Position(x0, y0), Position(x1, y1));
        }
      }
    }
  }

  /** Fewer elements than cells: some cell is free. */
  lemma FreeCellExists(grid: Grid, start: Position, end: Position)
    requires start.x <= end.x && start.y <= end.y
    requires NumberIn(grid, start, end, None) < Area(start, end)
    ensures exists p :: Within(p, start, end) && p !in grid
  {
    RegionFull(grid, start.x, end.x, start.y, end.y);
  }

  ghost predicate IsFull(grid: Grid, start: Position, end: Position) {
    forall p :: Within(p, start, end) ==> p in grid
  }

  /** Putting an element on a free cell of the region adds one to its kind, and none outside. */
  lemma NumberAdds(grid: Grid, p: Position, e: Element, start: Position, end: Position, kind: Option<Kind>)
    requires p !in grid
    ensures NumberIn(grid[p := e], start, end, kind) ==
            NumberIn(grid, start, end, kind)
            + if Within(p, start, end) && (kind.None? || e.kind == kind.value) then 1 else 0
  {
    hide CellsOf, Within, InRegion;
    RegionCells(grid, start.x, end.x, start.y, end.y, kind);
    RegionCells(grid[p := e], start.x, end.x, start.y, end.y, kind);
    CellsAdd(grid, p, e, start, end, kind);
  }

  lemma CellsAdd(grid: Grid, p: Position, e: Element, start: Position, end: Position, kind: Option<Kind>)
    requires p !in grid
    ensures var before := CellsOf(grid, start, end, kind);
            && p !in before
            && CellsOf(grid[p := e], start, end, kind) ==
               if Within(p, start, end) && (kind.None? || e.kind == kind.value) then before + {p} else before
  {
  }

  /** The whole world counts as many elements as the map has cells, no more than its area. */
  lemma CellsOfAll(grid: Grid, size: Position)
    requires forall p :: p in grid ==> Inside(p, size)
    ensures NumberIn(grid, Position(0, 0), size, None) == |grid| <= Area(Position(0, 0), size)
    ensures Area(Position(0, 0), size) == size.x * size.y
  {
    hide InRegion;
    RegionCells(grid, 0, size.x, 0, size.y, None);
    RegionFull(grid, 0, size.x, 0, size.y);
    assert CellsOf(grid, Position(0, 0), size, None) == grid.Keys;
  }

  /** A region is full exactly when it counts as many elements as it has cells. */
  lemma FullWhenCounted(grid: Grid, start: Position, end: Position)
    requires start.x <= end.x && start.y <= end.y
    ensures NumberIn(grid, start, end, None) <= Area(start, end)
    ensures IsFull(grid, start, end) <==> NumberIn(grid, start, end, None) == Area(start, end)
  {
    hide Within, InRegion;
    RegionFull(grid, start.x, end.x, start.y, end.y);
    if !IsFull(grid, start, end) {
      var p :| Within(p, start, end) && p !in grid;
      NumberAdds(grid, p, Element(0, Food), start, end, None);
      RegionFull(grid[p := Element(0, Food)], start.x, end.x, start.y, end.y);
    }
  }

  // ----- The class

  lemma SizeAdded(g: Grid, p: Position, e: Element)
    requires p !in g
    ensures |g[p := e]| == |g| + 1
  {
  }

  lemma SizeRemoved(g: Grid, p: Position)
    requires p in g
    ensures |g - {p}| == |g| - 1
  {
    assert g.Keys == (g - {p}).Keys + {p};
  }

  lemma NextCount(n: nat)
    ensures (n % 0x1_0000 + 1) % 0x1_0000 == (n + 1) % 0x1_0000
  {
  }

  class World {
    const size: Position
    const terrain: array2<Option<Element>>
    var numElements: HalfWord
    /** What the terrain says, as a map of the cells that hold an element. */
    ghost var cells: Grid

    ghost predicate Shaped() {
      terrain.Length0 == size.x && terrain.Length1 == size.y
    }

    ghost predicate Mirrored()
      reads this`cells, terrain
    {
      && Shaped()
      && (forall p :: p in cells ==> Inside(p, size))
      && (forall x: HalfWord, y: HalfWord :: x < size.x && y < size.y ==>
            terrain[x, y] == if Position(x, y) in cells then Some(cells[Position(x, y)]) else None)
    }

    /** The map is the terrain, and the counter is its size in the sixteen bits it has. */
    ghost predicate Valid()
      reads this, terrain
    {
      Mirrored() && numElements == |cells| % 0x1_0000
    }

    /** Write one cell of the terrain. */
    method Set(p: Position, e: Option<Element>)
      requires Mirrored() && Inside(p, size)
      modifies this`cells, terrain
      ensures Mirrored() && cells == match e case Some(v) => old(cells)[p := v] case None => old(cells) - {p}
    {
      terrain[p.x, p.y] := e;
      cells := match e case Some(v) => cells[p := v] case None => cells - {p};
    }

    constructor (width: HalfWord, height: HalfWord)
      ensures Valid() && fresh(terrain) && size == Position(width, height) && cells == map[]
    {
      size := Position(width, height);
      terrain := new Option<Element>[width, height]((x: nat, y: nat) => None);
      numElements := 0;
      cells := map[];
    }

    method Add(e: Element, p: Position) returns (r: Outcome)
      requires Valid()
      modifies this, terrain
      ensures Valid()
      ensures r == if Inside(p, size) && p !in old(cells) then Ok else WorldError
      ensures cells == if r.Ok? then old(cells)[p := e] else old(cells)
    {
      hide Mirrored;
      if p.x >= size.x || p.y >= size.y {
        return WorldError;
      }
      var used := Get(p);
      if used.Some? {
        return WorldError;
      }
      numElements := (numElements + 1) % 0x1_0000;
      SizeAdded(cells, p, e);
      Set(p, Some(e));
      return Ok;
    }

    method Remove(p: Position) returns (r: Outcome)
      requires Valid()
      modifies this, terrain
      ensures Valid()
      ensures r == if p in old(cells) then Ok else WorldError
      ensures cells == old(cells) - {p}
    {
      hide Mirrored;
      var used := Get(p);
      if used.None? {
        return WorldError;
      }
      numElements := (numElements + 0xFFFF) % 0x1_0000;
      SizeRemoved(cells, p);
      Set(p, None);
      return Ok;
    }

    method Get(p: Position) returns (r: Option<Element>)
      requires Valid()
      ensures r == if p in cells then Some(cells[p]) else None
      ensures r.Some? ==> Inside(p, size)
    {
      if p.x >= size.x || p.y >= size.y {
        return None;
      }
      return terrain[p.x, p.y];
    }

    /** Only a movable element, and only to a free cell of the world. */
    method Relocate(from: Position, to: Position) returns (r: Outcome)
      requires Valid()
      modifies this`cells, terrain
      ensures Valid()
      ensures r == if from in old(cells) && Inside(to, size) && to !in old(cells) && old(cells)[from].kind.Bug? then Ok
                   else WorldError
      ensures cells == if r.Ok? then (old(cells) - {from})[to := old(cells)[from]] else old(cells)
    {
      hide Mirrored;
      var element := Get(from);
      if element.None? {
        return WorldError;
      }
      var target := Get(to);
      if to.x >= size.x || to.y >= size.y || target.Some? {
        return WorldError;
      }
      if !element.value.kind.Bug? {
        return WorldError;
      }
      SizeRemoved(cells, from);
      SizeAdded(cells - {from}, to, element.value);
      Set(from, None);
      Set(to, element);
      return Ok;
    }

    /** The nested loops count in sixteen bits. */
    method NumElements(start: Position, end: Position, kind: Option<Kind>) returns (count: HalfWord)
      requires Valid()
      requires end.x <= size.x && end.y <= size.y
      ensures count == NumberIn(cells, start, end, kind) % 0x1_0000
    {
      count := 0;
      ghost var n := 0;
      var x := start.x;
      while x < end.x
        invariant start.x <= x && (x <= end.x || x == start.x)
        invariant n == InRegion(cells, start.x, x, start.y, end.y, kind) && count == n % 0x1_0000
      {
        ghost var before := n;
        var y := start.y;
        while y < end.y
          invariant start.y <= y && (y <= end.y || y == start.y)
          invariant n == before + InColumn(cells, x, start.y, y, kind) && count == n % 0x1_0000
        {
          var e := terrain[x, y];
          assert Counts(cells, Position(x, y), kind) <==> e.Some? && (kind.None? || e.value.kind == kind.value);
          if e.Some? && (kind.None? || e.value.kind == kind.value) {
            NextCount(n);
            count := (count + 1) % 0x1_0000;
            n := n + 1;
          }
          y := y + 1;
        }
        x := x + 1;
      }
    }

    /** The random draws: any free cell of the region may be the one they end on, and without one
        they do not end. */
    method DrawFree(start: Position, end: Position) returns (r: Option<Position>)
      requires Mirrored() && end.x <= size.x && end.y <= size.y
      ensures r.None? <==> IsFull(cells, start, end)
      ensures r.Some? ==> Within(r.value, start, end) && r.value !in cells
    {
      if exists x: HalfWord, y: HalfWord :: start.x <= x < end.x && start.y <= y < end.y && terrain[x, y].None? {
        var x: HalfWord, y: HalfWord :| start.x <= x < end.x && start.y <= y < end.y && terrain[x, y].None?;
        return Some(Position(x, y));
      }
      forall p | Within(p, start, end)
        ensures p in cells
      {
        assert terrain[p.x, p.y].Some?;
      }
      return None;
    }

    /** A free cell of the world, or the error when the counter says there is none. */
    method UnusedAnywhere() returns (r: Search)
      requires Valid()
      ensures r.NoneLeft? <==> |cells| == Area(Position(0, 0), size) < 0x1_0000
      ensures r.Endless? <==> |cells| == Area(Position(0, 0), size) >= 0x1_0000
      ensures r.Found? ==> Inside(r.position, size) && r.position !in cells
    {
      hide NumberIn, Area, IsFull;
      CellsOfAll(cells, size);
      FullWhenCounted(cells, Position(0, 0), size);
      if size.x as int * size.y as int == numElements as int {
        return NoneLeft;
      }
      var p := DrawFree(Position(0, 0), size);
      return if p.Some? then Found(p.value) else Endless;
    }

    /** The same for a region, from the count of its cells. */
    method UnusedPosition(start: Position, end: Position) returns (r: Search)
      requires Valid()
      requires start.x < end.x <= size.x && start.y < end.y <= size.y
      ensures r.NoneLeft? <==> IsFull(cells, start, end) && Area(start, end) < 0x1_0000
      ensures r.Endless? <==> IsFull(cells, start, end) && Area(start, end) >= 0x1_0000
      ensures r.Found? ==> Within(r.position, start, end) && r.position !in cells
    {
      hide NumberIn, IsFull;
      FullWhenCounted(cells, start, end);
      var count := NumElements(start, end, None);
      if (end.x as int - start.x as int) * (end.y as int - start.y as int) == count as int {
        return NoneLeft;
      }
      var p := DrawFree(start, end);
      return if p.Some? then Found(p.value) else Endless;
    }
  }
}
